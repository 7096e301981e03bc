/** Finding the lines again after damaged data: fourteen zeros and a one are always the end of a
    line sooner or later, and fewer need not be. */
module T4Resync {
  import opened Bits
  import opened T4Tables
  import T4Coding
  import opened T4Decoder
  import T4TableChecks

  /** Reading n lines one after another, from the given table on, takes all bits but the rest,
      with the white table next. */
  predicate LinesReach(book: Codebook, tab: TabId, s: seq<bool>, n: nat, rest: seq<bool>)
    requires Sound(book)
    decreases n
  {
    if n == 0 then tab == W1 && s == rest
    else
      var d := Decode(book, tab, s);
      d.done && LinesReach(book, d.tab, d.rest, n - 1, rest)
  }

  /** Where in a window the end of a line is seen, there is a one. */
  lemma {:induction false} EolBit(w: seq<bool>, n: nat)
    requires |w| == 9 && 1 <= n <= 9 && Pow2(n - 1) <= Value(w) < Pow2(n)
    ensures w[9 - n]
  {
    var p := w[..10 - n];
    PrefixValue(w, 10 - n);
    DivUnique(Value(w), Pow2(n - 1), 1, Value(w) - Pow2(n - 1));
    assert p[|p| - 1] == w[9 - n];
    assert Value(p) == 1;
  }

  lemma {:induction false} FillEol(n: nat, i: nat, w: seq<bool>)
    requires n <= 9 && |w| == 9 && i == Value(w) && FillEntry(n, i).code == EOL
    ensures var e := FillEntry(n, i); e.next == W1 && 1 <= e.bits <= 9 && w[e.bits - 1]
    decreases n
  {
    if Pow2(n - 1) <= i < Pow2(n) { EolBit(w, n); } else { FillEol(n - 1, i, w); }
  }

  /** Every line ends in a one, with the white table next, and leaves the bits after it. */
  lemma {:induction false} EndsInOne(book: Codebook, tab: TabId, s: seq<bool>)
    requires Sound(book) && Decode(book, tab, s).done
    ensures var d := Decode(book, tab, s); var k := |s| - |d.rest|;
      d.tab == W1 && 1 <= k <= |s| && s[k - 1] && s[k..] == d.rest
    decreases |s|
  {
    var e := Lookup(book, tab, Window(s));
    LookupKind(book, tab, Window(s));
    if e.code == EOL {
      FillEol(9, Window(s), s[..9]);
    } else {
      OneLookup(book, tab, s, e);
      EndsInOne(book, e.next, s[e.bits..]);
      var k := |s[e.bits..]| - |Decode(book, e.next, s[e.bits..]).rest|;
      assert s[e.bits..][k..] == s[e.bits + k..];
    }
  }

  /** The first line ends with the one after the zeros, or among the bits before. */
  lemma {:induction false} FirstLine(book: Codebook, tab: TabId, s: seq<bool>, a: nat, rest: seq<bool>, all: seq<bool>)
      returns (k: nat)
    requires Sound(book) && a >= 14 && |rest| >= 8 && all == s + (Zeros(a) + [true] + rest)
    ensures 1 <= k <= |all| && (k == |s| + a + 1 || k <= |s|)
    ensures var d := Decode(book, tab, all); d.done && d.tab == W1 && d.rest == all[k..]
  {
    assert all[|s|..] == Zeros(a) + [true] + rest;
    Resync(book, tab, all, |s|, a);
    EndsInOne(book, tab, all);
    k := |all| - |Decode(book, tab, all).rest|;
    if k <= |s| + a { OneBefore(s, a, rest, k); }
  }

  lemma {:induction false} Cut(s: seq<bool>, a: nat, rest: seq<bool>, k: nat)
    requires k <= |s| + a + 1
    ensures k <= |s| ==> (s + (Zeros(a) + [true] + rest))[k..] == s[k..] + (Zeros(a) + [true] + rest)
    ensures k == |s| + a + 1 ==> (s + (Zeros(a) + [true] + rest))[k..] == rest
  {
  }

  /** Whatever the bits, and whatever state they leave the decoder in, the lines after fourteen
      zeros and a one are read from there. */
  lemma {:induction false} Recovers(book: Codebook, tab: TabId, s: seq<bool>, a: nat, rest: seq<bool>) returns (n: nat)
    requires Sound(book) && a >= 14 && |rest| >= 8
    ensures n > 0 && LinesReach(book, tab, s + (Zeros(a) + [true] + rest), n, rest)
    decreases |s|
  {
    var k := FirstLine(book, tab, s, a, rest, s + (Zeros(a) + [true] + rest));
    Cut(s, a, rest, k);
    n := 0;
    if k <= |s| { n := Recovers(book, W1, s[k..], a, rest); }
    n := n + 1;
  }

  /** Up to the one after the zeros, ones are among the bits before. */
  lemma {:induction false} OneBefore(s: seq<bool>, a: nat, rest: seq<bool>, k: nat)
    requires 1 <= k <= |s| + a && (s + (Zeros(a) + [true] + rest))[k - 1]
    ensures k <= |s|
  {
    var all := s + (Zeros(a) + [true] + rest);
    assert forall i | |s| <= i < |s| + a :: all[i] == Zeros(a)[i - |s|];
  }

  // Fewer zeros.

  /** A code word that begins with zeros and a one has that one in it. */
  lemma {:induction false} CodeHasOne(t: seq<T4Code>, k: nat, s: seq<bool>, b: nat)
    requires Decodable(t) && k < CODES && OneAfter(s, b) && T4Coding.CodeBits(t, k) <= s
    ensures t[k].bits > b
  {
    var c := t[k];
    assert GoodEntry(t, k);
    if c.bits <= b {
      assert T4Coding.CodeBits(t, k) == Zeros(c.bits);
      CodeFits(c, k);
      ZerosValue(Zeros(c.bits));
      ValueDetermines(T4Coding.CodeBits(t, k), c.code);
    }
  }

  /** Fewer than eleven zeros and a one, seen from the table of a colour, do not end a line: if
      one ends later, it is after that one. */
  lemma {:induction false} NotEnough(book: Codebook, c: Colour, s: seq<bool>, b: nat)
    requires Sound(book) && OneAfter(s, b) && b < 11 && |s| >= b + 13
    requires Decode(book, First(c), s).done
    ensures |Decode(book, First(c), s).rest| < |s| - (b + 1)
    decreases b, 1
  {
    var t := book.Get(c);
    if k: nat :| k < CODES && T4Coding.CodeBits(t, k) <= s {
      DecodeCode(book, c, k, s);
      CodeHasOne(t, k, s, b);
      EndsInOne(book, Next(c, k), s[t[k].bits..]);
    } else {
      assert NoCode(t, s);
      DecodeOther(book, c, s);
      assert !(Zeros(11) <= s);
      NotSkipped(book, s, b, if Decode(book, First(c), s) == Decode(book, W1, s[1..]) then 1 else 5);
    }
  }

  /** The same after some bits are skipped. */
  lemma {:induction false} NotSkipped(book: Codebook, s: seq<bool>, b: nat, m: nat)
    requires Sound(book) && OneAfter(s, b) && b < 11 && |s| >= b + 13 && 1 <= m <= 5
    requires Decode(book, W1, s[m..]).done
    ensures |Decode(book, W1, s[m..]).rest| < |s| - (b + 1)
    decreases b, 0
  {
    if m <= b {
      assert OneAfter(s[m..], b - m);
      NotEnough(book, White, s[m..], b - m);
    } else {
      EndsInOne(book, W1, s[m..]);
    }
  }

  /** The white code word for three pixels is a one and three zeros. */
  lemma {:induction false} ThreeWhite()
    ensures |WTAB| > CODES && T4Coding.CodeBits(WTAB, 3) == [true] + Zeros(3)
  {
    assert WTAB[3] == T4Code(8, 4, 3);
  }

  /** Fourteen zeros are needed: after that code word up to thirteen zeros and a one, some of
      which belong to the code word, are not the end of the line. */
  lemma {:induction false} FourteenNeeded(a: nat, rest: seq<bool>)
    requires 3 <= a <= 13 && |rest| >= 12
    ensures Sound(T4)
    ensures var d := Decode(T4, W1, [true] + (Zeros(a) + [true] + rest)); d.done ==> |d.rest| < |rest|
  {
    T4TableChecks.T4Sound();
    ThreeWhite();
    Swallowed(T4, a, rest);
  }

  lemma {:induction false} Swallowed(book: Codebook, a: nat, rest: seq<bool>)
    requires Sound(book) && T4Coding.CodeBits(book.white, 3) == [true] + Zeros(3) && 3 <= a <= 13 && |rest| >= 12
    ensures var d := Decode(book, W1, [true] + (Zeros(a) + [true] + rest)); d.done ==> |d.rest| < |rest|
  {
    var s := [true] + (Zeros(a) + [true] + rest);
    var t := Zeros(a - 3) + [true] + rest;
    assert s == ([true] + Zeros(3)) + t;
    assert s[4..] == t;
    DecodeCode(book, White, 3, s);
    assert OneAfter(t, a - 3);
    if Decode(book, B1, t).done { NotEnough(book, Black, t, a - 3); }
  }
}
