/** Lines that encryption loses: the receiver drops a line whose encrypted total, kept in 16
    bits, is not positive. */
module LineLoss {
  import Bits
  import T4Coding
  import T4RoundTrip
  import opened FaxReader
  import FaxFrames
  import opened Keystream
  import opened LineCipher
  import opened WordArithmetic
  import opened RunLines

  // Totals of runs.

  lemma {:induction false} SumNext(runs: seq<int>, r: int)
    ensures Sum(runs + [r]) == Sum(runs) + r
  {
    assert (runs + [r])[..|runs|] == runs;
  }

  lemma {:induction false} SumIsWidth(runs: seq<int>)
    ensures Sum(runs) == Width(runs)
  {
    if runs != [] {
      var init, r := runs[..|runs| - 1], runs[|runs| - 1];
      SumIsWidth(init);
      WidthAppend(init, [r]);
      assert runs == init + [r];
    }
  }

  predicate AllZero(runs: seq<int>)
  {
    forall i | 0 <= i < |runs| :: runs[i] == 0
  }

  lemma {:induction false} ZeroSum(runs: seq<int>)
    requires Lengths(runs)
    ensures Sum(runs) >= 0 && (Sum(runs) == 0 <==> AllZero(runs))
  {
    if runs != [] {
      var init := runs[..|runs| - 1];
      ZeroSum(init);
      assert runs == init + [runs[|runs| - 1]];
    }
  }

  /** Each run of c is at most 255 longer than that of the line. */
  predicate Longer(c: seq<int>, line: seq<int>)
  {
    |c| == |line| && forall i | 0 <= i < |c| :: c[i] <= line[i] + 255
  }

  lemma {:induction false} LongerSum(c: seq<int>, line: seq<int>)
    requires Longer(c, line)
    ensures Sum(c) <= Sum(line) + 255 * |line|
  {
    if c != [] { LongerSum(c[..|c| - 1], line[..|line| - 1]); }
  }

  // What encryption does to a run.

  lemma {:induction false} XorZero(z: nat, b: nat, n: nat)
    requires z == 0 && b < Bits.Pow2(n)
    ensures Xor(z, b, n) == b
    decreases n
  {
    if n > 0 { XorZero(z / 2, b / 2, n - 1); }
  }

  lemma {:induction false} XorSelf(b: nat, n: nat)
    ensures Xor(b, b, n) == 0
    decreases n
  {
    if n > 0 { XorSelf(b / 2, n - 1); }
  }

  /** Bytes cancel exactly when they are the same. */
  lemma {:induction false} XorCancels(a: Bits.byte, b: Bits.byte)
    ensures 0 <= Xor(a, b, 8) <= 255
    ensures Xor(a, b, 8) == 0 <==> a == b
  {
    assert Bits.Pow2(8) == 256;
    XorRange(a, b, 8);
    XorTwice(a, b, 8);
    XorZero(0, b, 8);
    XorSelf(b, 8);
  }

  /** An encrypted run is at most 255 longer, and is zero only for the keystream's own byte. */
  lemma {:induction false} XorRunGrowth(r: nat, k: word)
    ensures 0 <= XorRun(r, k) <= r + 255
    ensures XorRun(r, k) == 0 <==> r == LowByte(k)
  {
    XorCancels(r % 256, LowByte(k));
    var high := r - r % 256;
    assert high >= 0 && (high == 0 <==> r < 256);
  }

  lemma {:induction false} ZeroRun(k: word)
    ensures XorRun(0, k) == LowByte(k) < 256
  {
    assert Bits.Pow2(8) == 256;
    XorZero(0, LowByte(k), 8);
  }

  /** Run i is the keystream's own byte. */
  predicate Cancels(key: Key, line: seq<int>, i: nat)
    requires i < |line|
  {
    line[i] == LowByte(Stream(key, i))
  }

  predicate AllCancel(key: Key, line: seq<int>)
  {
    forall i | 0 <= i < |line| :: Cancels(key, line, i)
  }

  lemma {:induction false} CipherRun(key: Key, line: seq<int>, i: nat)
    requires Lengths(line) && i < |line|
    ensures 0 <= Cipher(key, line)[i] <= line[i] + 255
    ensures Cipher(key, line)[i] == 0 <==> Cancels(key, line, i)
  {
    XorRunGrowth(line[i], Stream(key, i));
  }

  lemma {:induction false} CipherRuns(key: Key, line: seq<int>)
    requires Lengths(line)
    ensures Lengths(Cipher(key, line)) && Longer(Cipher(key, line), line)
    ensures AllZero(Cipher(key, line)) <==> AllCancel(key, line)
  {
    forall i | 0 <= i < |line|
      ensures 0 <= Cipher(key, line)[i] <= line[i] + 255 && (Cipher(key, line)[i] == 0 <==> Cancels(key, line, i))
    {
      CipherRun(key, line, i);
    }
  }

  /** The encrypted total is at most 255 more for each run, and is zero only for the keystream's
      own bytes. */
  lemma {:induction false} CipherTotal(key: Key, line: seq<int>)
    requires Lengths(line)
    ensures 0 <= Sum(Cipher(key, line)) <= Width(line) + 255 * |line|
    ensures Sum(Cipher(key, line)) == 0 <==> AllCancel(key, line)
  {
    CipherRuns(key, line);
    ZeroSum(Cipher(key, line));
    LongerSum(Cipher(key, line), line);
    SumIsWidth(line);
  }

  lemma {:induction false} ShortOver(v: int)
    ensures 32768 <= v <= 65536 ==> Short(v) <= 0
    ensures 0 <= v < 32768 ==> Short(v) == v
  {
  }

  /** A line whose runs and pixels are not too many is lost only when it is the keystream's own bytes. */
  lemma {:induction false} SurvivalTest(key: Key, line: seq<int>)
    requires Lengths(line) && Width(line) + 255 * |line| <= 32767
    ensures !FaxFrames.Survives(key, line) <==> AllCancel(key, line)
  {
    CipherTotal(key, line);
    ShortOver(Sum(Cipher(key, line)));
  }

  /** Whatever the key, some line of at most 255 pixels is lost. */
  lemma {:induction false} SomeLineIsLost(key: Key) returns (line: seq<int>)
    ensures FaxFrames.Codable(key, line) && Width(line) <= 255 && !FaxFrames.Survives(key, line)
  {
    var b := LowByte(Stream(key, 0));
    line := [b];
    ZeroRun(Stream(key, 0));
    assert Width(line) == b + Width(line[1..]);
    SurvivalTest(key, line);
    FewCodes(Cipher(key, line));
  }

  // Lines as wide as a page.

  /** A white line of w pixels with n runs of no pixels after it. */
  function Padding(w: nat, n: nat): (line: seq<int>)
    ensures |line| == n + 1 && Lengths(line)
  {
    [w] + seq(n, _ => 0)
  }

  lemma {:induction false} PaddingNext(w: nat, n: nat)
    ensures Padding(w, n + 1) == Padding(w, n) + [0]
  {
  }

  lemma {:induction false} PaddingWidth(w: nat, n: nat)
    ensures Width(Padding(w, n)) == w
    decreases n
  {
    if n == 0 {
      assert Padding(w, 0) == [w] && [w][1..] == [];
    } else {
      PaddingNext(w, n - 1);
      PaddingWidth(w, n - 1);
      WidthAppend(Padding(w, n - 1), [0]);
      assert [0][1..] == [];
    }
  }

  /** The encrypted total of such a line. */
  function PaddingTotal(key: Key, w: nat, n: nat): int
  {
    Sum(Cipher(key, Padding(w, n)))
  }

  /** One more run of no pixels adds a byte of the keystream. */
  lemma {:induction false} TotalGrows(key: Key, w: nat, n: nat)
    ensures PaddingTotal(key, w, n + 1) == PaddingTotal(key, w, n) + LowByte(Stream(key, n + 1))
    ensures 0 <= LowByte(Stream(key, n + 1)) <= 255
  {
    PaddingNext(w, n);
    var k := Stream(key, n + 1);
    ZeroRun(k);
    assert Cipher(key, Padding(w, n) + [0]) == Cipher(key, Padding(w, n)) + [LowByte(k)];
    SumNext(Cipher(key, Padding(w, n)), LowByte(k));
  }

  lemma {:induction false} TotalStarts(key: Key, w: nat)
    requires w > 255
    ensures 0 < PaddingTotal(key, w, 0) <= w + 255
  {
    assert Padding(w, 0) == [w];
    PaddingWidth(w, 0);
    CipherTotal(key, [w]);
    assert !Cancels(key, [w], 0);
  }

  lemma {:induction false} FewCodes(runs: seq<int>)
    ensures |T4RoundTrip.LineEmits(runs)| <= 2 * |runs|
  {
    if runs != [] { FewCodes(runs[1..]); }
  }

  /** The most runs of no pixels that are sure to fit in the run buffer once they are coded. */
  const MOST := T4Coding.MAXRUNS / 2 - 2

  /** Such a line is as wide as a page of w pixels and can be coded. */
  lemma {:induction false} PaddingCodable(key: Key, w: nat, n: nat)
    requires 0 < w <= 2432 && n <= MOST
    ensures Width(Padding(w, n)) == w && FaxFrames.Codable(key, Padding(w, n))
  {
    PaddingWidth(w, n);
    FewCodes(Cipher(key, Padding(w, n)));
  }

  /** A line whose total is past the range of 16 bits is lost, as wide as the page though it is. */
  lemma {:induction false} WideLineIsLost(key: Key, w: nat, n: nat)
    requires 0 < w <= 2432 && n <= MOST && 32768 <= PaddingTotal(key, w, n) <= 65536
    ensures Width(Padding(w, n)) == w && FaxFrames.Codable(key, Padding(w, n))
        && !FaxFrames.Survives(key, Padding(w, n))
  {
    PaddingCodable(key, w, n);
    ShortOver(PaddingTotal(key, w, n));
  }

  lemma {:induction false} StaysWhole(key: Key, w: nat, n: nat)
    requires 0 < PaddingTotal(key, w, n) < 32768
    ensures FaxFrames.Survives(key, Padding(w, n))
  {
    ShortOver(PaddingTotal(key, w, n));
  }

  /** Totals that grow by at most 255 at a time. */
  ghost predicate Climbs(totals: nat -> int)
  {
    0 < totals(0) < 32768 && forall n: nat :: ClimbsAt(totals, n)
  }

  ghost predicate ClimbsAt(totals: nat -> int, n: nat)
  {
    totals(n) <= totals(n + 1) <= totals(n) + 255
  }

  /** Where such a total first leaves the range of 16 bits, it has not gone round yet. */
  lemma {:induction false} FirstOver(totals: nat -> int, m: nat) returns (n: nat)
    requires Climbs(totals) && totals(m) >= 32768
    ensures n <= m && 32768 <= totals(n) <= 65536
    decreases m
  {
    assert m > 0 && ClimbsAt(totals, m - 1);
    if totals(m - 1) >= 32768 { n := FirstOver(totals, m - 1); } else { n := m; }
  }

  lemma {:induction false} NoneOver(totals: nat -> int, n: nat, m: nat)
    requires Climbs(totals) && n <= m
    ensures 0 < totals(n) <= totals(m)
    decreases m
  {
    if n < m {
      NoneOver(totals, n, m - 1);
      assert ClimbsAt(totals, m - 1);
    } else if n > 0 {
      NoneOver(totals, n - 1, n - 1);
      assert ClimbsAt(totals, n - 1);
    }
  }

  function Totals(key: Key, w: nat): nat -> int
  {
    (n: nat) => PaddingTotal(key, w, n)
  }

  lemma {:induction false} TotalsClimb(key: Key, w: nat)
    requires 255 < w <= 2432
    ensures Climbs(Totals(key, w))
  {
    TotalStarts(key, w);
    forall n: nat ensures ClimbsAt(Totals(key, w), n) { TotalGrows(key, w, n); }
  }

  /** At a page's width some such line is lost exactly when the keystream's bytes add up to
      enough. */
  lemma {:induction false} SomeWideLineIsLost(key: Key, w: nat)
    requires 255 < w <= 2432
    ensures (exists n: nat :: n <= MOST && !FaxFrames.Survives(key, Padding(w, n)))
        <==> PaddingTotal(key, w, MOST) >= 32768
  {
    var totals, most := Totals(key, w), MOST;
    TotalsClimb(key, w);
    if totals(most) >= 32768 {
      var n := FirstOver(totals, most);
      WideLineIsLost(key, w, n);
    } else {
      forall n: nat | n <= most ensures FaxFrames.Survives(key, Padding(w, n)) {
        NoneOver(totals, n, most);
        StaysWhole(key, w, n);
      }
    }
  }

  // Pages that seem to end early.

  /** The line i lines before line k has total 0, if it is on the page. */
  predicate ZeroBefore(key: Key, lines: seq<seq<int>>, k: nat, i: nat)
    requires k < |lines|
  {
    i > k || FaxFrames.SentTotal(key, lines[k - i]) == 0
  }

  /** Line k is the fifth in a row with total 0, counting those before the page. */
  predicate FifthZero(key: Key, lines: seq<seq<int>>, zeros: nat, k: nat)
    requires k < |lines|
  {
    && k + zeros >= 4 && ZeroBefore(key, lines, k, 0) && ZeroBefore(key, lines, k, 1) && ZeroBefore(key, lines, k, 2)
    && ZeroBefore(key, lines, k, 3) && ZeroBefore(key, lines, k, 4)
  }

  lemma {:induction false} ZeroNext(key: Key, lines: seq<seq<int>>, k: nat, i: nat)
    requires 0 < k < |lines|
    ensures ZeroBefore(key, lines, k, i)
       <==> ZeroBefore(key, lines[1..], k - 1, i) && (i == k ==> FaxFrames.SentTotal(key, lines[0]) == 0)
  {
    if i < k { assert lines[1..][k - 1 - i] == lines[k - i]; }
  }

  /** The same seen from the second line. */
  lemma {:induction false} FifthNext(key: Key, lines: seq<seq<int>>, zeros: nat, k: nat)
    requires 0 < k < |lines|
    ensures FifthZero(key, lines, zeros, k) <==>
      FifthZero(key, lines[1..], if FaxFrames.SentTotal(key, lines[0]) == 0 then zeros + 1 else 0, k - 1)
  {
    hide ZeroBefore, FaxFrames.SentTotal;
    ZeroNext(key, lines, k, 0);
    ZeroNext(key, lines, k, 1);
    ZeroNext(key, lines, k, 2);
    ZeroNext(key, lines, k, 3);
    ZeroNext(key, lines, k, 4);
  }

  /** The lines with a positive total. */
  function Surviving(key: Key, lines: seq<seq<int>>): seq<seq<int>>
  {
    if lines == [] then []
    else (if FaxFrames.SentTotal(key, lines[0]) > 0 then [lines[0]] else []) + Surviving(key, lines[1..])
  }

  /** Without five in a row all lines with a positive total come back, and the page seems to end
      early only if its last line has total 0. */
  lemma {:induction false} NoneCut(key: Key, lines: seq<seq<int>>, zeros: nat)
    requires zeros < 5 && forall k | 0 <= k < |lines| :: !FifthZero(key, lines, zeros, k)
    ensures FaxFrames.Delivered(key, lines, zeros) == Surviving(key, lines)
    ensures FaxFrames.CutShort(key, lines, zeros)
       <==> if lines == [] then zeros > 0 else FaxFrames.SentTotal(key, lines[|lines| - 1]) == 0
  {
    if lines != [] {
      var more := if FaxFrames.SentTotal(key, lines[0]) == 0 then zeros + 1 else 0;
      assert !FifthZero(key, lines, zeros, 0);
      forall k | 0 <= k < |lines[1..]| ensures !FifthZero(key, lines[1..], more, k) {
        FifthNext(key, lines, zeros, k + 1);
      }
      assert more < 5;
      NoneCut(key, lines[1..], more);
    }
  }

  /** With the fifth in a row the page is cut off: nothing after it comes back. */
  lemma {:induction false} CutOff(key: Key, lines: seq<seq<int>>, zeros: nat, k: nat)
    requires zeros < 5 && k < |lines| && FifthZero(key, lines, zeros, k)
    ensures FaxFrames.Delivered(key, lines, zeros) == FaxFrames.Delivered(key, lines[..k], zeros)
    ensures FaxFrames.CutShort(key, lines, zeros)
    decreases k
  {
    hide FaxFrames.SentTotal;
    var total := FaxFrames.SentTotal(key, lines[0]);
    if k > 0 && !(total == 0 && zeros + 1 >= 5) {
      FifthNext(key, lines, zeros, k);
      CutOff(key, lines[1..], if total == 0 then zeros + 1 else 0, k - 1);
      CutTail(lines, k);
    }
  }

  lemma {:induction false} CutTail(lines: seq<seq<int>>, k: nat)
    requires 0 < k < |lines|
    ensures lines[..k] != [] && lines[..k][0] == lines[0] && lines[..k][1..] == lines[1..][..k - 1]
  {
  }
}
