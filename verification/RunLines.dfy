/** Scan lines as run lengths: the first run is white, and colours alternate. */
module RunLines {
  import Bits
  import T4Coding

  /** n pixels of one colour; black is true. */
  function Solid(n: nat, black: bool): (s: seq<bool>)
    ensures |s| == n
    decreases n, black
  {
    if n == 0 then [] else [black] + Solid(n - 1, black)
  }

  predicate Lengths(runs: seq<int>)
  {
    forall i | 0 <= i < |runs| :: runs[i] >= 0
  }

  /** The pixels of runs whose first colour is given. */
  function Pixels(runs: seq<int>, black: bool): seq<bool>
    requires Lengths(runs)
  {
    if runs == [] then []
    else Solid(runs[0], black) + Pixels(runs[1..], !black)
  }

  /** The pixels of a scan line. */
  function Expand(runs: seq<int>): seq<bool>
    requires Lengths(runs)
  {
    Pixels(runs, false)
  }

  function Width(runs: seq<int>): int
  {
    if runs == [] then 0 else runs[0] + Width(runs[1..])
  }

  lemma {:induction false} PixelsWidth(runs: seq<int>, black: bool)
    requires Lengths(runs)
    ensures |Pixels(runs, black)| == Width(runs)
  {
    if runs != [] { PixelsWidth(runs[1..], !black); }
  }

  lemma {:induction false} WidthAppend(a: seq<int>, b: seq<int>)
    ensures Width(a + b) == Width(a) + Width(b)
  {
    if a == [] {
      assert a + b == b;
    } else {
      assert (a + b)[1..] == a[1..] + b;
      WidthAppend(a[1..], b);
    }
  }

  function Odd(n: nat): bool
  {
    n % 2 == 1
  }

  lemma {:induction false} PixelsAppend(a: seq<int>, b: seq<int>, black: bool)
    requires Lengths(a) && Lengths(b)
    ensures Lengths(a + b)
    ensures Pixels(a + b, black) == Pixels(a, black) + Pixels(b, black != Odd(|a|))
  {
    if a == [] {
      assert a + b == b;
    } else {
      var tail := a[1..];
      assert a + b == [a[0]] + (tail + b) && (a + b)[1..] == tail + b;
      assert (!black != Odd(|tail|)) == (black != Odd(|a|));
      PixelsAppend(tail, b, !black);
      Bits.SeqAssoc(Solid(a[0], black), Pixels(tail, !black), Pixels(b, black != Odd(|a|)));
    }
  }

  lemma {:induction false} PixelsSingle(n: nat, black: bool)
    ensures Pixels([n], black) == Solid(n, black)
  {
    assert Pixels([n], black) == Solid(n, black) + [];
  }

  lemma {:induction false} SolidSplit(m: nat, n: nat, black: bool)
    ensures Solid(m + n, black) == Solid(m, black) + Solid(n, black)
    decreases m
  {
    if m > 0 {
      SolidSplit(m - 1, n, black);
      Bits.SeqAssoc([black], Solid(m - 1, black), Solid(n, black));
    }
  }

  /** Adding a run at the end of a line adds its pixels. */
  lemma {:induction false} ExpandSnoc(runs: seq<int>, n: nat)
    requires Lengths(runs)
    ensures Expand(runs + [n]) == Expand(runs) + Solid(n, Odd(|runs|))
  {
    PixelsAppend(runs, [n], false);
    PixelsSingle(n, Odd(|runs|));
  }

  /** Lengthening the last run adds pixels of its colour. */
  lemma {:induction false} ExpandGrow(runs: seq<int>, n: nat)
    requires Lengths(runs) && runs != []
    ensures var last := |runs| - 1;
            Expand(runs[last := runs[last] + n]) == Expand(runs) + Solid(n, Odd(last))
  {
    var last := |runs| - 1;
    var init, r := runs[..last], runs[last];
    assert runs == init + [r] && runs[last := r + n] == init + [r + n];
    ExpandSnoc(init, r);
    ExpandSnoc(init, r + n);
    SolidSplit(r, n, Odd(last));
    Bits.SeqAssoc(Expand(init), Solid(r, Odd(last)), Solid(n, Odd(last)));
  }

  // Combining two lines.

  /** The pixelwise or of two lines, the shorter one extended with white. */
  function Or(a: seq<bool>, b: seq<bool>): seq<bool>
  {
    if a == [] then b else if b == [] then a else [a[0] || b[0]] + Or(a[1..], b[1..])
  }

  function PixelAt(a: seq<bool>, i: nat): bool
  {
    i < |a| && a[i]
  }

  lemma {:induction false} OrAt(a: seq<bool>, b: seq<bool>)
    ensures |Or(a, b)| == if |a| >= |b| then |a| else |b|
    ensures forall i: nat :: PixelAt(Or(a, b), i) == (PixelAt(a, i) || PixelAt(b, i))
  {
    if a != [] && b != [] {
      OrAt(a[1..], b[1..]);
      forall i: nat ensures PixelAt(Or(a, b), i) == (PixelAt(a, i) || PixelAt(b, i)) {
        if i > 0 {
          assert PixelAt(Or(a[1..], b[1..]), i - 1) == (PixelAt(a[1..], i - 1) || PixelAt(b[1..], i - 1));
        }
      }
    }
  }

  lemma {:induction false} OrSolid(n: nat, p: bool, q: bool, a: seq<bool>, b: seq<bool>)
    ensures Or(Solid(n, p) + a, Solid(n, q) + b) == Solid(n, p || q) + Or(a, b)
    decreases n
  {
    if n == 0 {
      assert [] + a == a && [] + b == b && [] + Or(a, b) == Or(a, b);
    } else {
      var s, t := Solid(n - 1, p), Solid(n - 1, q);
      Bits.SeqAssoc([p], s, a);
      Bits.SeqAssoc([q], t, b);
      assert ([p] + (s + a))[1..] == s + a && ([q] + (t + b))[1..] == t + b;
      OrSolid(n - 1, p, q, a, b);
      Bits.SeqAssoc([p || q], Solid(n - 1, p || q), Or(a, b));
    }
  }

  lemma {:induction false} OrTogether(n: nat, p: bool, q: bool, x: seq<bool>, a: seq<bool>, y: seq<bool>, b: seq<bool>)
    requires x == Solid(n, p) + a && y == Solid(n, q) + b
    ensures Or(x, y) == Solid(n, p || q) + Or(a, b)
  {
    OrSolid(n, p, q, a, b);
  }

  lemma {:induction false} OrEmpty(a: seq<bool>)
    ensures Or(a, []) == a && Or([], a) == a
  {
  }

  /** What is left of a line from run i on, when n pixels of run i are left. */
  function Rest(runs: seq<int>, i: nat, n: int): seq<bool>
    requires Lengths(runs) && n >= 0
  {
    if i < |runs| then Solid(n, Odd(i)) + Pixels(runs[i + 1..], !Odd(i)) else []
  }

  /** The length of run i, if there is one. */
  function First(runs: seq<int>, i: nat): int
  {
    if i < |runs| then runs[i] else 0
  }

  /** Going on to the next run. */
  lemma {:induction false} RestNext(runs: seq<int>, i: nat, n: nat)
    requires Lengths(runs) && i < |runs|
    ensures Rest(runs, i, n) == Solid(n, Odd(i)) + Rest(runs, i + 1, First(runs, i + 1))
  {
    if i + 1 < |runs| {
      assert runs[i + 1..][1..] == runs[i + 2..];
    } else {
      assert runs[i + 1..] == [];
    }
  }

  /** Taking the first m pixels of a run. */
  lemma {:induction false} RestTake(runs: seq<int>, i: nat, m: nat, n: nat)
    requires Lengths(runs) && i < |runs| && m <= n
    ensures Rest(runs, i, n) == Solid(m, Odd(i)) + Rest(runs, i, n - m)
  {
    SolidSplit(m, n - m, Odd(i));
    Bits.SeqAssoc(Solid(m, Odd(i)), Solid(n - m, Odd(i)), Pixels(runs[i + 1..], !Odd(i)));
  }

  /** n pixels appended to an output line, in its last run or in a new one. */
  function Emit(c: seq<int>, n: int, black: bool): seq<int>
    requires c != []
  {
    var last := |c| - 1;
    if black != Odd(last) then c + [n] else c[last := c[last] + n]
  }

  lemma {:induction false} EmitAdds(c: seq<int>, n: nat, black: bool)
    requires c != [] && Lengths(c)
    ensures Lengths(Emit(c, n, black))
    ensures Expand(Emit(c, n, black)) == Expand(c) + Solid(n, black)
  {
    if black != Odd(|c| - 1) { ExpandSnoc(c, n); } else { ExpandGrow(c, n); }
  }

  /** A stretch of output pixels of one colour. */
  datatype Stretch = Stretch(n: int, black: bool)

  function EmitAll(c: seq<int>, ss: seq<Stretch>): (r: seq<int>)
    requires c != []
    ensures r != []
    decreases ss
  {
    if ss == [] then c else EmitAll(Emit(c, ss[0].n, ss[0].black), ss[1..])
  }

  /** The stretches of the rest of line a, from run ia with la pixels of it left. */
  function Left(a: seq<int>, ia: nat, la: int): seq<Stretch>
    requires ia <= |a|
    decreases |a| - ia
  {
    if ia < |a| then [Stretch(la, Odd(ia))] + Left(a, ia + 1, First(a, ia + 1)) else []
  }

  /** The stretches that combining gives from run ia of a, with la pixels of it left, and
      run ib of b, with lb pixels of it left. */
  function Combined(a: seq<int>, ia: nat, la: int, b: seq<int>, ib: nat, lb: int): seq<Stretch>
    requires ia <= |a| && ib <= |b|
    decreases |a| - ia + |b| - ib
  {
    if ia < |a| && ib < |b| then
      if la <= lb then [Stretch(la, Odd(ia) || Odd(ib))] + Combined(a, ia + 1, First(a, ia + 1), b, ib, lb - la)
      else [Stretch(lb, Odd(ia) || Odd(ib))] + Combined(a, ia, la - lb, b, ib + 1, First(b, ib + 1))
    else if ia < |a| then Left(a, ia, la)
    else Left(b, ib, lb)
  }

  predicate Stretches(ss: seq<Stretch>)
  {
    forall i | 0 <= i < |ss| :: ss[i].n >= 0
  }

  function StretchPixels(ss: seq<Stretch>): seq<bool>
    requires Stretches(ss)
  {
    if ss == [] then [] else Solid(ss[0].n, ss[0].black) + StretchPixels(ss[1..])
  }

  lemma {:induction false} StretchCons(s: Stretch, ss: seq<Stretch>)
    requires s.n >= 0 && Stretches(ss)
    ensures Stretches([s] + ss) && StretchPixels([s] + ss) == Solid(s.n, s.black) + StretchPixels(ss)
  {
    assert ([s] + ss)[1..] == ss;
  }

  /** Emitting stretches adds their pixels. */
  lemma {:induction false} EmitAllPixels(c: seq<int>, ss: seq<Stretch>)
    requires c != [] && Lengths(c) && Stretches(ss)
    ensures Lengths(EmitAll(c, ss))
    ensures Expand(EmitAll(c, ss)) == Expand(c) + StretchPixels(ss)
    decreases ss
  {
    if ss == [] {
      assert Expand(c) + [] == Expand(c);
    } else {
      EmitAdds(c, ss[0].n, ss[0].black);
      EmitAllPixels(Emit(c, ss[0].n, ss[0].black), ss[1..]);
      Bits.SeqAssoc(Expand(c), Solid(ss[0].n, ss[0].black), StretchPixels(ss[1..]));
    }
  }

  lemma {:induction false} LeftPixels(a: seq<int>, ia: nat, la: nat)
    requires Lengths(a) && ia <= |a|
    ensures Stretches(Left(a, ia, la))
    ensures StretchPixels(Left(a, ia, la)) == Rest(a, ia, la)
    decreases |a| - ia
  {
    if ia < |a| {
      LeftPixels(a, ia + 1, First(a, ia + 1));
      StretchCons(Stretch(la, Odd(ia)), Left(a, ia + 1, First(a, ia + 1)));
      RestNext(a, ia, la);
    }
  }

  lemma {:induction false} OrStepLeft(a: seq<int>, ia: nat, la: nat, b: seq<int>, ib: nat, lb: nat)
    requires Lengths(a) && Lengths(b) && ia < |a| && ib < |b| && la <= lb
    ensures Or(Rest(a, ia, la), Rest(b, ib, lb))
         == Solid(la, Odd(ia) || Odd(ib)) + Or(Rest(a, ia + 1, First(a, ia + 1)), Rest(b, ib, lb - la))
  {
    RestNext(a, ia, la);
    RestTake(b, ib, la, lb);
    OrTogether(la, Odd(ia), Odd(ib), Rest(a, ia, la), Rest(a, ia + 1, First(a, ia + 1)), Rest(b, ib, lb),
               Rest(b, ib, lb - la));
  }

  lemma {:induction false} OrStepRight(a: seq<int>, ia: nat, la: nat, b: seq<int>, ib: nat, lb: nat)
    requires Lengths(a) && Lengths(b) && ia < |a| && ib < |b| && lb <= la
    ensures Or(Rest(a, ia, la), Rest(b, ib, lb))
         == Solid(lb, Odd(ia) || Odd(ib)) + Or(Rest(a, ia, la - lb), Rest(b, ib + 1, First(b, ib + 1)))
  {
    RestTake(a, ia, lb, la);
    RestNext(b, ib, lb);
    OrTogether(lb, Odd(ia), Odd(ib), Rest(a, ia, la), Rest(a, ia, la - lb), Rest(b, ib, lb),
               Rest(b, ib + 1, First(b, ib + 1)));
  }

  lemma {:induction false} OrEnded(a: seq<int>, ia: nat, la: nat, b: seq<int>, ib: nat, lb: nat)
    requires Lengths(a) && Lengths(b)
    ensures ib >= |b| ==> Or(Rest(a, ia, la), Rest(b, ib, lb)) == Rest(a, ia, la)
    ensures ia >= |a| ==> Or(Rest(a, ia, la), Rest(b, ib, lb)) == Rest(b, ib, lb)
  {
    OrEmpty(Rest(a, ia, la));
    OrEmpty(Rest(b, ib, lb));
  }

  /** The stretches show the or of what is left of two lines. */
  predicate Shows(ss: seq<Stretch>, a: seq<int>, ia: nat, la: nat, b: seq<int>, ib: nat, lb: nat)
    requires Lengths(a) && Lengths(b)
  {
    Stretches(ss) && Bits.Same(StretchPixels(ss), Or(Rest(a, ia, la), Rest(b, ib, lb)))
  }

  lemma {:induction false} ShowsLeft(ss: seq<Stretch>, a: seq<int>, ia: nat, la: nat, b: seq<int>, ib: nat, lb: nat)
    requires Lengths(a) && Lengths(b) && ia < |a| && ib < |b| && la <= lb
    requires Shows(ss, a, ia + 1, First(a, ia + 1), b, ib, lb - la)
    ensures Shows([Stretch(la, Odd(ia) || Odd(ib))] + ss, a, ia, la, b, ib, lb)
  {
    StretchCons(Stretch(la, Odd(ia) || Odd(ib)), ss);
    OrStepLeft(a, ia, la, b, ib, lb);
  }

  lemma {:induction false} ShowsRight(ss: seq<Stretch>, a: seq<int>, ia: nat, la: nat, b: seq<int>, ib: nat, lb: nat)
    requires Lengths(a) && Lengths(b) && ia < |a| && ib < |b| && lb <= la
    requires Shows(ss, a, ia, la - lb, b, ib + 1, First(b, ib + 1))
    ensures Shows([Stretch(lb, Odd(ia) || Odd(ib))] + ss, a, ia, la, b, ib, lb)
  {
    StretchCons(Stretch(lb, Odd(ia) || Odd(ib)), ss);
    OrStepRight(a, ia, la, b, ib, lb);
  }

  lemma {:induction false} ShowsEnded(a: seq<int>, ia: nat, la: nat, b: seq<int>, ib: nat, lb: nat)
    requires Lengths(a) && Lengths(b) && ia <= |a| && ib <= |b|
    ensures ib == |b| ==> Shows(Left(a, ia, la), a, ia, la, b, ib, lb)
    ensures ia == |a| ==> Shows(Left(b, ib, lb), a, ia, la, b, ib, lb)
  {
    OrEnded(a, ia, la, b, ib, lb);
    LeftPixels(a, ia, la);
    LeftPixels(b, ib, lb);
  }

  /** Combining shows the or of what is left of the lines. */
  lemma {:induction false} CombinedPixels(a: seq<int>, ia: nat, la: nat, b: seq<int>, ib: nat, lb: nat,
                                          ss: seq<Stretch>)
    requires Lengths(a) && Lengths(b) && ia <= |a| && ib <= |b| && ss == Combined(a, ia, la, b, ib, lb)
    ensures Shows(ss, a, ia, la, b, ib, lb)
    decreases |a| - ia + |b| - ib
  {
    if ia < |a| && ib < |b| {
      if la <= lb {
        var more := Combined(a, ia + 1, First(a, ia + 1), b, ib, lb - la);
        CombinedPixels(a, ia + 1, First(a, ia + 1), b, ib, lb - la, more);
        ShowsLeft(more, a, ia, la, b, ib, lb);
      } else {
        var more := Combined(a, ia, la - lb, b, ib + 1, First(b, ib + 1));
        CombinedPixels(a, ia, la - lb, b, ib + 1, First(b, ib + 1), more);
        ShowsRight(more, a, ia, la, b, ib, lb);
      }
    } else {
      ShowsEnded(a, ia, la, b, ib, lb);
    }
  }

  lemma {:induction false} LeftCount(a: seq<int>, ia: nat, la: int)
    requires ia <= |a|
    ensures |Left(a, ia, la)| == |a| - ia
    decreases |a| - ia
  {
    if ia < |a| { LeftCount(a, ia + 1, First(a, ia + 1)); }
  }

  predicate FewStretches(ss: seq<Stretch>, runs: int)
  {
    |ss| <= runs && (runs > 0 ==> ss != [])
  }

  /** Each run gives at most one stretch. */
  lemma {:induction false} CombinedCount(a: seq<int>, ia: nat, la: int, b: seq<int>, ib: nat, lb: int)
    requires ia <= |a| && ib <= |b|
    ensures FewStretches(Combined(a, ia, la, b, ib, lb), |a| - ia + |b| - ib)
    decreases |a| - ia + |b| - ib
  {
    if ia < |a| && ib < |b| {
      if la <= lb {
        CombinedCount(a, ia + 1, First(a, ia + 1), b, ib, lb - la);
        OneStretch(a, ia, la, b, ib, lb, Combined(a, ia + 1, First(a, ia + 1), b, ib, lb - la));
      } else {
        CombinedCount(a, ia, la - lb, b, ib + 1, First(b, ib + 1));
        OneStretch(a, ia, la, b, ib, lb, Combined(a, ia, la - lb, b, ib + 1, First(b, ib + 1)));
      }
    } else {
      LeftCount(a, ia, la);
      LeftCount(b, ib, lb);
    }
  }

  lemma {:induction false} OneStretch(a: seq<int>, ia: nat, la: int, b: seq<int>, ib: nat, lb: int, more: seq<Stretch>)
    requires ia < |a| && ib < |b| && FewStretches(more, |a| - ia + |b| - ib - 1)
    requires more == if la <= lb then Combined(a, ia + 1, First(a, ia + 1), b, ib, lb - la)
                     else Combined(a, ia, la - lb, b, ib + 1, First(b, ib + 1))
    ensures FewStretches(Combined(a, ia, la, b, ib, lb), |a| - ia + |b| - ib)
  {
  }

  /** The combination of two lines. */
  function OrLines(a: seq<int>, b: seq<int>): seq<int>
    requires a != [] && b != []
  {
    EmitAll([0], Combined(a, 0, a[0], b, 0, b[0]))
  }

  /** Its pixels are the pixelwise or, in at most as many runs as the two lines have. */
  lemma {:induction false} OrLinesPixels(a: seq<int>, b: seq<int>)
    requires a != [] && b != [] && Lengths(a) && Lengths(b)
    ensures Lengths(OrLines(a, b)) && 0 < |OrLines(a, b)| <= |a| + |b|
    ensures Expand(OrLines(a, b)) == Or(Expand(a), Expand(b))
  {
    var ss := Combined(a, 0, a[0], b, 0, b[0]);
    CombinedPixels(a, 0, a[0], b, 0, b[0], ss);
    CombinedCount(a, 0, a[0], b, 0, b[0]);
    EmitAllPixels([0], ss);
    FirstStretch(a, b);
    EmitAllCount(Emit([0], ss[0].n, false), ss[1..]);
    PixelsSingle(0, false);
    assert [] + StretchPixels(ss) == StretchPixels(ss);
  }

  /** The first stretch is white. */
  lemma {:induction false} FirstStretch(a: seq<int>, b: seq<int>)
    requires a != [] && b != []
    ensures var ss := Combined(a, 0, a[0], b, 0, b[0]); ss != [] && !ss[0].black
  {
  }

  lemma {:induction false} EmitAllCount(c: seq<int>, ss: seq<Stretch>)
    requires c != []
    ensures |EmitAll(c, ss)| <= |c| + |ss|
    decreases ss
  {
    if ss != [] { EmitAllCount(Emit(c, ss[0].n, ss[0].black), ss[1..]); }
  }

  /** Put n pixels into the output buffer. */
  method EmitInto(c: array<int>, ic: nat, n: int, black: bool) returns (jc: nat)
    requires ic + 1 < c.Length || (ic < c.Length && black == Odd(ic))
    modifies c
    ensures ic <= jc <= ic + 1 && jc < c.Length
    ensures c[..jc + 1] == Emit(old(c[..ic + 1]), n, black)
  {
    if black != Odd(ic) {
      jc := ic + 1;
      c[jc] := n;
    } else {
      jc := ic;
      c[ic] := c[ic] + n;
    }
  }

  lemma {:induction false} EmitNext(c: seq<int>, s: Stretch, ss: seq<Stretch>)
    requires c != []
    ensures EmitAll(c, [s] + ss) == EmitAll(Emit(c, s.n, s.black), ss)
  {
    assert ([s] + ss)[1..] == ss;
  }

  /** Put the rest of line a into the output buffer. */
  method DrainInto(a: seq<int>, ia0: nat, la0: int, c: array<int>, ic0: nat) returns (ic: nat)
    requires ia0 <= |a| && ic0 + |a| - ia0 < c.Length
    modifies c
    ensures ic < c.Length && c[..ic + 1] == EmitAll(old(c[..ic0 + 1]), Left(a, ia0, la0))
  {
    var ia, la := ia0, la0;
    ic := ic0;
    while ia < |a|
      invariant ia0 <= ia <= |a| && ic + |a| - ia < c.Length
      invariant EmitAll(c[..ic + 1], Left(a, ia, la)) == EmitAll(old(c[..ic0 + 1]), Left(a, ia0, la0))
    {
      EmitNext(c[..ic + 1], Stretch(la, Odd(ia)), Left(a, ia + 1, First(a, ia + 1)));
      ic := EmitInto(c, ic, la, Odd(ia));
      ia := ia + 1;
      la := First(a, ia);
    }
  }

  /** What is to be put after the runs in the buffer to complete the combination. */
  ghost predicate Combining(out: seq<int>, a: seq<int>, ia: nat, la: int, b: seq<int>, ib: nat, lb: int)
  {
    && a != [] && b != [] && out != [] && ia <= |a| && ib <= |b|
    && |out| <= (if ia + ib == 0 then 1 else ia + ib)
    && Bits.Same(EmitAll(out, Combined(a, ia, la, b, ib, lb)), OrLines(a, b))
  }

  lemma {:induction false} CombiningStart(a: seq<int>, b: seq<int>)
    requires a != [] && b != []
    ensures Combining([0], a, 0, a[0], b, 0, b[0])
  {
  }

  lemma {:induction false} CombiningEnd(out: seq<int>, a: seq<int>, ia: nat, la: int, b: seq<int>, ib: nat, lb: int)
    requires Combining(out, a, ia, la, b, ib, lb) && (ia == |a| || ib == |b|)
    ensures EmitAll(out, if ia < |a| then Left(a, ia, la) else Left(b, ib, lb)) == OrLines(a, b)
    ensures |out| <= ia + ib
  {
  }

  /** Going on after the pixels that the current runs share. */
  predicate Shared(a: seq<int>, ia: nat, la: int, b: seq<int>, ib: nat, lb: int, ja: nat, ka: int, jb: nat, kb: int)
  {
    if la <= lb then ja == ia + 1 && ka == First(a, ja) && jb == ib && kb == lb - la
    else ja == ia && ka == la - lb && jb == ib + 1 && kb == First(b, jb)
  }

  function SharedPixels(la: int, lb: int): int
  {
    if la <= lb then la else lb
  }

  lemma {:induction false} CombiningNext(out: seq<int>, a: seq<int>, ia: nat, la: int, b: seq<int>, ib: nat, lb: int,
                                         ja: nat, ka: int, jb: nat, kb: int)
    requires Combining(out, a, ia, la, b, ib, lb) && ia < |a| && ib < |b|
    requires Shared(a, ia, la, b, ib, lb, ja, ka, jb, kb)
    ensures Combining(Emit(out, SharedPixels(la, lb), Odd(ia) || Odd(ib)), a, ja, ka, b, jb, kb)
  {
    EmitNext(out, Stretch(SharedPixels(la, lb), Odd(ia) || Odd(ib)), Combined(a, ja, ka, b, jb, kb));
  }

  /** Put the pixels that the current runs share into the output buffer. */
  method Share(a: seq<int>, ia: nat, la: int, b: seq<int>, ib: nat, lb: int, c: array<int>, ic: nat)
    returns (ja: nat, ka: int, jb: nat, kb: int, jc: nat)
    requires ia < |a| && ib < |b| && ic + 1 < c.Length
    modifies c
    ensures Shared(a, ia, la, b, ib, lb, ja, ka, jb, kb)
    ensures jc < c.Length && c[..jc + 1] == Emit(old(c[..ic + 1]), SharedPixels(la, lb), Odd(ia) || Odd(ib))
  {
    ja, ka, jb, kb := ia, la, ib, lb;
    if la <= lb {
      jc := EmitInto(c, ic, la, Odd(ia) || Odd(ib));
      kb := lb - la;
      ja := ia + 1;
      ka := First(a, ja);
    } else {
      jc := EmitInto(c, ic, lb, Odd(ia) || Odd(ib));
      ka := la - lb;
      jb := ib + 1;
      kb := First(b, jb);
    }
  }

  /** Combine lines a and b into c. */
  method OrInto(a: seq<int>, b: seq<int>, c: array<int>) returns (ic: nat)
    requires a != [] && b != [] && |a| + |b| <= c.Length
    modifies c
    ensures ic < c.Length && c[..ic + 1] == OrLines(a, b)
  {
    var ia: nat, la, ib: nat, lb := 0, a[0], 0, b[0];
    ic := 0;
    c[0] := 0;
    ghost var out := [0];
    assert c[..1] == out;
    CombiningStart(a, b);
    while ia < |a| && ib < |b|
      invariant ic < c.Length && c[..ic + 1] == out
      invariant Combining(out, a, ia, la, b, ib, lb)
      decreases |a| + |b| - ia - ib
    {
      ghost var ja, ka, jb, kb := ia, la, ib, lb;
      ia, la, ib, lb, ic := Share(a, ia, la, b, ib, lb, c, ic);
      CombiningNext(out, a, ja, ka, b, jb, kb, ia, la, ib, lb);
      out := c[..ic + 1];
    }
    CombiningEnd(out, a, ia, la, b, ib, lb);
    if ia < |a| {
      ic := DrainInto(a, ia, la, c, ic);
    } else {
      ic := DrainInto(b, ib, lb, c, ic);
    }
  }

  /** Copy the combined line back, adding up its width. */
  method CopyBack(c: array<int>, n: nat, a: array<int>) returns (pels: int)
    requires a != c && n <= a.Length && n <= c.Length
    modifies a
    ensures a[..n] == c[..n] && pels == Width(c[..n])
  {
    pels := 0;
    for i := 0 to n
      invariant a[..i] == c[..i] && pels == Width(c[..i])
    {
      a[i] := c[i];
      pels := pels + c[i];
      WidthAppend(c[..i], [c[i]]);
      assert c[..i + 1] == c[..i] + [c[i]];
    }
  }

  /** What combining takes from a buffer with nr runs: it reads the first run before it looks
      at their number. */
  function InUse(buf: seq<int>, nr: nat): seq<int>
    requires buf != [] && nr <= |buf|
  {
    if nr == 0 then buf[..1] else buf[..nr]
  }

  /** What reading an empty line leaves in the first place of the buffer: its end-of-line code. */
  const NO_RUNS := -1

  /** The combination with a line that may have been read as empty. */
  function OrInput(a: seq<int>, b: seq<int>): seq<int>
    requires b != []
  {
    if a == [] then b else OrLines(a, b)
  }

  lemma {:induction false} OrInputPixels(a: seq<int>, b: seq<int>)
    requires b != [] && Lengths(a) && Lengths(b)
    ensures Lengths(OrInput(a, b)) && 0 < |OrInput(a, b)| <= |a| + |b|
    ensures Expand(OrInput(a, b)) == Or(Expand(a), Expand(b))
  {
    if a != [] { OrLinesPixels(a, b); }
  }

  /** Emitting the runs of a line one by one gives the line. */
  lemma {:induction false} EmitLeft(c: seq<int>, b: seq<int>, i: nat)
    requires 0 < i == |c| <= |b| && c == b[..i]
    ensures EmitAll(c, Left(b, i, First(b, i))) == b
    decreases |b| - i
  {
    if i < |b| {
      assert b[..i + 1] == c + [b[i]];
      EmitNext(c, Stretch(b[i], Odd(i)), Left(b, i + 1, First(b, i + 1)));
      EmitLeft(c + [b[i]], b, i + 1);
    } else {
      assert b[..i] == b;
    }
  }

  /** An empty line combined with another gives the other. */
  lemma {:induction false} OrNoRuns(b: seq<int>)
    requires b != [] && b[0] >= 0
    ensures OrLines([NO_RUNS], b) == b
  {
    var others := Left(b, 1, First(b, 1));
    var rest := [Stretch(b[0] + 1, false)] + others;
    assert Left(b, 0, b[0] + 1) == rest;
    assert Combined([NO_RUNS], 1, 0, b, 0, b[0] + 1) == rest;
    assert Combined([NO_RUNS], 0, NO_RUNS, b, 0, b[0]) == [Stretch(NO_RUNS, false)] + rest;
    EmitNext([0], Stretch(NO_RUNS, false), rest);
    EmitNext([NO_RUNS], Stretch(b[0] + 1, false), others);
    assert Emit([0], NO_RUNS, false) == [NO_RUNS] && Emit([NO_RUNS], b[0] + 1, false) == [b[0]];
    assert b[..1] == [b[0]];
    EmitLeft([b[0]], b, 1);
  }

  /** Or line b, given as a buffer and its number of runs, into line a. The new width is the
      larger of the two. */
  method RunOr(a: array<int>, na: nat, b: seq<int>, nb: nat) returns (nr: nat, pels: int)
    requires na <= a.Length && T4Coding.MAXRUNS <= a.Length && b != [] && nb <= |b|
    requires Lengths(a[..na]) && Lengths(InUse(b, nb)) && (na == 0 ==> a[0] == NO_RUNS)
    requires na + |InUse(b, nb)| < T4Coding.MAXRUNS || (na > 0 && na + |InUse(b, nb)| == T4Coding.MAXRUNS)
    modifies a
    ensures nr <= a.Length && a[..nr] == OrInput(old(a[..na]), InUse(b, nb))
    ensures 0 < nr && Lengths(a[..nr])
    ensures Expand(a[..nr]) == Or(old(Expand(a[..na])), Expand(InUse(b, nb)))
    ensures pels == Width(a[..nr]) == |Expand(a[..nr])|
  {
    ghost var was, other := a[..na], InUse(b, nb);
    var c := new int[T4Coding.MAXRUNS];
    var ic := OrInto(InUse(a[..], na), InUse(b, nb), c);
    OrFound(a[..], na, other);
    OrInputPixels(was, other);
    nr := ic + 1;
    pels := CopyBack(c, nr, a);
    PixelsWidth(a[..nr], false);
  }

  lemma {:induction false} OrFound(buf: seq<int>, na: nat, b: seq<int>)
    requires buf != [] && na <= |buf| && b != [] && Lengths(b) && (na == 0 ==> buf[0] == NO_RUNS)
    ensures OrLines(InUse(buf, na), b) == OrInput(buf[..na], b)
  {
    if na == 0 {
      assert buf[..1] == [NO_RUNS];
      OrNoRuns(b);
    }
  }
}
