/** Reading scan lines from the modem: the decoder's bit register, fed with data
    characters, and the recombination of the codes into runs. */
module FaxReader {
  import opened Bits
  import opened T4Tables
  import opened T4Coding
  import opened T4Decoder
  import opened T4RoundTrip
  import T4LookupTables
  import opened Transport

  const RTCEOL := 5

  // The bits a data character adds: a byte's own, or the end-of-line pad.

  const PAD: seq<bool> := Zeros(14) + [true]

  function CharBits(c: int): seq<bool>
    requires c < 256
  {
    if c < 0 then PAD else ToBits(c, 8)
  }

  /** The bits of the next n data characters of the input. */
  function Loads(order: BitOrder, inp: seq<byte>, n: nat): seq<bool>
    decreases n, inp
  {
    if n == 0 then [] else Loads(order, inp, n - 1) + CharBits(DataChar(order, AfterChars(inp, n - 1)))
  }

  /** The last of n data characters, or NO_INPUT when none is read. */
  function LastChar(order: BitOrder, inp: seq<byte>, n: nat): int
  {
    if n == 0 then NO_INPUT else DataChar(order, AfterChars(inp, n - 1))
  }

  lemma {:induction false} AfterCharsNext(inp: seq<byte>, n: nat)
    ensures AfterChars(inp, n + 1) == AfterChar(AfterChars(inp, n))
    decreases n
  {
    if n > 0 { AfterCharsNext(AfterChar(inp), n - 1); }
  }

  lemma {:induction false} InputRunsOut(inp: seq<byte>, n: nat)
    ensures |AfterChars(inp, n)| + n <= |inp| || AfterChars(inp, n) == []
    decreases n
  {
    if n > 0 { InputRunsOut(AfterChar(inp), n - 1); }
  }

  // Decoding does not depend on bits that have not arrived.

  /** More input does not change what is already decoded. */
  lemma {:induction false} DecodeMore(book: Codebook, tab: TabId, s: seq<bool>, t: seq<bool>)
    requires Sound(book)
    ensures var d := Decode(book, tab, s);
            Decode(book, tab, s + t) == if d.done then d.(rest := d.rest + t)
                                        else Decode(book, d.tab, d.rest + t).Prefixed(d.codes)
    ensures var d := Decode(book, tab, s); !d.done ==> |d.rest| < 9
    decreases |s|
  {
    if |s| < 9 {
      EmptyPrefix(Decode(book, tab, s + t));
    } else {
      var e := Lookup(book, tab, Window(s));
      LookupBits(book, tab, Window(s));
      assert (s + t)[..9] == s[..9];
      assert (s + t)[e.bits..] == s[e.bits..] + t;
      if e.code != EOL {
        DecodeMore(book, e.next, s[e.bits..], t);
        var d := Decode(book, e.next, s[e.bits..]);
        if e.code != 0 && !d.done {
          PrefixedTwice(Decode(book, d.tab, d.rest + t), [e.code], d.codes);
        }
      }
    }
  }

  /** An end of line takes at least 20 bits from the start of a line. */
  lemma {:induction false} EolNeeds(book: Codebook, tab: TabId, s: seq<bool>)
    requires Sound(book) && Decode(book, tab, s).done
    ensures |s| >= ZerosNeeded(tab) + 9
    ensures |Decode(book, tab, s).rest| < |s|
    decreases |s|
  {
    var e := Lookup(book, tab, Window(s));
    LookupKind(book, tab, Window(s));
    FirstHandsOver(book, tab, Window(s));
    if e.code != EOL {
      EolNeeds(book, e.next, s[e.bits..]);
    }
  }

  /** The first tables hand over only to the second, and those are four bits on. */
  lemma {:induction false} FirstHandsOver(book: Codebook, tab: TabId, i: nat)
    requires Sound(book)
    ensures var e := Lookup(book, tab, i);
      && (IsFirst(tab) ==> IsFirst(e.next) || (e.next in {W2, B2} && e.bits == 4))
      && (tab in {W2, B2} ==> IsFirst(e.next) || (e.next == Fill && e.bits == 7))
  {
    match tab
    case W1 => FirstOver(book.white, White, CODES, i);
    case W2 => SecondOver(book.white, White, CODES, i);
    case B1 => FirstOver(book.black, Black, CODES, i);
    case B2 => SecondOver(book.black, Black, CODES, i);
    case Fill =>
  }

  lemma {:induction false} FirstOver(t: seq<T4Code>, c: Colour, n: nat, i: nat)
    requires n < |t|
    ensures var e := FirstEntry(t, c, n, i); IsFirst(e.next) || (e.next == Second(c) && e.bits == 4)
    decreases n
  {
    if n > 0 { FirstOver(t, c, n - 1, i); }
  }

  lemma {:induction false} SecondOver(t: seq<T4Code>, c: Colour, n: nat, i: nat)
    requires n < |t|
    ensures var e := SecondEntry(t, c, n, i); IsFirst(e.next) || (e.next == Fill && e.bits == 7)
    decreases n
  {
    if n > 0 { SecondOver(t, c, n - 1, i); }
  }

  // How much input a line takes.

  /** Once the input has run out, two more reads bring enough pad to end any line. */
  lemma {:induction false} EnoughLoads(book: Codebook, order: BitOrder, tab: TabId, pend: seq<bool>, inp: seq<byte>)
    requires Sound(book)
    ensures Decode(book, tab, pend + Loads(order, inp, |inp| + 2)).done
  {
    var before := Loads(order, inp, |inp|);
    TwoPads(order, inp);
    SeqAssoc(pend, before, PAD + PAD);
    PadsEnd(book, tab, pend + before);
  }

  lemma {:induction false} TwoPads(order: BitOrder, inp: seq<byte>)
    ensures Loads(order, inp, |inp| + 2) == Loads(order, inp, |inp|) + (PAD + PAD)
  {
    var n := |inp|;
    InputRunsOut(inp, n);
    InputRunsOut(inp, n + 1);
    assert Loads(order, inp, n + 1) == Loads(order, inp, n) + PAD;
    assert Loads(order, inp, n + 2) == Loads(order, inp, n + 1) + PAD;
    SeqAssoc(Loads(order, inp, n), PAD, PAD);
  }

  lemma {:induction false} PadsEnd(book: Codebook, tab: TabId, v: seq<bool>)
    requires Sound(book)
    ensures Decode(book, tab, v + (PAD + PAD)).done
  {
    var s := v + (PAD + PAD);
    assert s[|v|..] == PAD + PAD;
    Resync(book, tab, s, |v|, 14);
  }

  /** The line has ended after n reads. */
  ghost predicate DoneAfter(book: Codebook, order: BitOrder, tab: TabId, pend: seq<bool>, inp: seq<byte>, n: nat)
    requires Sound(book)
  {
    Decode(book, tab, pend + Loads(order, inp, n)).done
  }

  /** The line ends with exactly r reads. */
  ghost predicate EndsWith(book: Codebook, order: BitOrder, tab: TabId, pend: seq<bool>, inp: seq<byte>, r: nat)
    requires Sound(book)
  {
    && r <= |inp| + 2 && DoneAfter(book, order, tab, pend, inp, r)
    && forall m | 0 <= m < r :: !DoneAfter(book, order, tab, pend, inp, m)
  }

  lemma {:induction false} LineEnds(book: Codebook, order: BitOrder, tab: TabId, pend: seq<bool>, inp: seq<byte>,
                                    n: nat)
    requires Sound(book) && n <= |inp| + 2
    requires forall m | 0 <= m < n :: !DoneAfter(book, order, tab, pend, inp, m)
    ensures exists r: nat :: EndsWith(book, order, tab, pend, inp, r)
    decreases |inp| + 2 - n
  {
    if DoneAfter(book, order, tab, pend, inp, n) {
      assert EndsWith(book, order, tab, pend, inp, n);
    } else {
      EnoughLoads(book, order, tab, pend, inp);
      LineEnds(book, order, tab, pend, inp, n + 1);
    }
  }

  /** The number of reads after which the line has ended. */
  ghost function LineLoads(book: Codebook, order: BitOrder, tab: TabId, pend: seq<bool>, inp: seq<byte>): (r: nat)
    requires Sound(book)
    ensures EndsWith(book, order, tab, pend, inp, r)
  {
    LineEnds(book, order, tab, pend, inp, 0);
    var r: nat :| EndsWith(book, order, tab, pend, inp, r);
    r
  }

  /** What reading one line gives: its codes, the decoder's table and pending bits, the
      input left, and the last character read. */
  datatype LineRead = LineRead(codes: seq<int>, tab: TabId, pend: seq<bool>, inp: seq<byte>, last: int)

  ghost function LineAfter(book: Codebook, order: BitOrder, tab: TabId, pend: seq<bool>, inp: seq<byte>,
                           n: nat): LineRead
    requires Sound(book)
  {
    var d := Decode(book, tab, pend + Loads(order, inp, n));
    LineRead(d.codes, d.tab, d.rest, AfterChars(inp, n), LastChar(order, inp, n))
  }

  ghost function ReadLine(book: Codebook, order: BitOrder, tab: TabId, pend: seq<bool>, inp: seq<byte>): LineRead
    requires Sound(book)
  {
    LineAfter(book, order, tab, pend, inp, LineLoads(book, order, tab, pend, inp))
  }

  // The decoder's steps, whatever input follows.

  /** Decoding s from table tab0 emits the given codes and goes on with table tab at pend,
      whatever bits follow. */
  ghost predicate Reaches(book: Codebook, tab0: TabId, s: seq<bool>, codes: seq<int>, tab: TabId, pend: seq<bool>)
    requires Sound(book)
  {
    forall t: seq<bool> :: ReachesOn(book, tab0, s, codes, tab, pend, t)
  }

  ghost predicate ReachesOn(book: Codebook, tab0: TabId, s: seq<bool>, codes: seq<int>, tab: TabId, pend: seq<bool>,
                            t: seq<bool>)
    requires Sound(book)
  {
    Decode(book, tab0, s + t) == Decode(book, tab, pend + t).Prefixed(codes)
  }

  lemma {:induction false} ReachesStart(book: Codebook, tab: TabId, pend: seq<bool>)
    requires Sound(book)
    ensures Reaches(book, tab, pend, [], tab, pend)
  {
    forall t: seq<bool> ensures ReachesOn(book, tab, pend, [], tab, pend, t) {
      EmptyPrefix(Decode(book, tab, pend + t));
    }
  }

  lemma {:induction false} ReachesLoad(book: Codebook, tab0: TabId, s: seq<bool>, codes: seq<int>, tab: TabId,
                                       pend: seq<bool>, u: seq<bool>)
    requires Sound(book) && Reaches(book, tab0, s, codes, tab, pend)
    ensures Reaches(book, tab0, s + u, codes, tab, pend + u)
  {
    forall t: seq<bool> ensures ReachesOn(book, tab0, s + u, codes, tab, pend + u, t) {
      assert ReachesOn(book, tab0, s, codes, tab, pend, u + t);
      SeqAssoc(s, u, t);
      SeqAssoc(pend, u, t);
    }
  }

  lemma {:induction false} ReachesStep(book: Codebook, tab0: TabId, s: seq<bool>, codes: seq<int>, tab: TabId,
                                       pend: seq<bool>, e: Entry)
    requires Sound(book) && Reaches(book, tab0, s, codes, tab, pend)
    requires |pend| >= 9 && e == Lookup(book, tab, Window(pend)) && e.code != EOL
    ensures 1 <= e.bits <= 9
    ensures Reaches(book, tab0, s, if e.code == 0 then codes else codes + [e.code], e.next, pend[e.bits..])
  {
    LookupBits(book, tab, Window(pend));
    var codes', pend' := if e.code == 0 then codes else codes + [e.code], pend[e.bits..];
    forall t: seq<bool> ensures ReachesOn(book, tab0, s, codes', e.next, pend', t) {
      assert ReachesOn(book, tab0, s, codes, tab, pend, t);
      assert (pend + t)[..9] == pend[..9];
      assert (pend + t)[e.bits..] == pend' + t;
      OneLookup(book, tab, pend + t, e);
      if e.code != 0 {
        PrefixedTwice(Decode(book, e.next, pend' + t), codes, [e.code]);
      }
    }
  }

  /** Short of nine bits no end of line has been decoded. */
  lemma {:induction false} ReachesShort(book: Codebook, tab0: TabId, s: seq<bool>, codes: seq<int>, tab: TabId,
                                        pend: seq<bool>)
    requires Sound(book) && Reaches(book, tab0, s, codes, tab, pend) && |pend| < 9
    ensures !Decode(book, tab0, s).done
  {
    assert ReachesOn(book, tab0, s, codes, tab, pend, []);
    assert s + [] == s;
  }

  lemma {:induction false} ReachesEnd(book: Codebook, tab0: TabId, s: seq<bool>, codes: seq<int>, tab: TabId,
                                      pend: seq<bool>, e: Entry)
    requires Sound(book) && Reaches(book, tab0, s, codes, tab, pend)
    requires |pend| >= 9 && e == Lookup(book, tab, Window(pend)) && e.code == EOL
    ensures 1 <= e.bits <= 9
    ensures Decode(book, tab0, s) == Decoded(codes, e.next, pend[e.bits..], true)
  {
    LookupBits(book, tab, Window(pend));
    assert ReachesOn(book, tab0, s, codes, tab, pend, []);
    assert s + [] == s && pend + [] == pend;
  }

  /** Where the reading of a line has got to after n characters: the codes so far, and the
      table and bits from which any further input is decoded. */
  ghost predicate Progress(book: Codebook, order: BitOrder, start: LineRead, n: nat, now: LineRead)
    requires Sound(book)
  {
    && n <= LineLoads(book, order, start.tab, start.pend, start.inp)
    && now.inp == AfterChars(start.inp, n)
    && now.last == LastChar(order, start.inp, n)
    && Reaches(book, start.tab, start.pend + Loads(order, start.inp, n), now.codes, now.tab, now.pend)
  }

  ghost function ReadsLeft(book: Codebook, order: BitOrder, start: LineRead, n: nat): int
    requires Sound(book)
  {
    LineLoads(book, order, start.tab, start.pend, start.inp) - n
  }

  lemma {:induction false} ProgressStart(book: Codebook, order: BitOrder, start: LineRead)
    requires Sound(book) && start.codes == [] && start.last == NO_INPUT
    ensures Progress(book, order, start, 0, start)
  {
    ReachesStart(book, start.tab, start.pend);
    assert start.pend + Loads(order, start.inp, 0) == start.pend;
  }

  /** As long as the line has not ended, more reads are to come. */
  lemma {:induction false} MoreReads(book: Codebook, order: BitOrder, start: LineRead, n: nat)
    requires Sound(book) && n <= LineLoads(book, order, start.tab, start.pend, start.inp)
    requires !Decode(book, start.tab, start.pend + Loads(order, start.inp, n)).done
    ensures ReadsLeft(book, order, start, n) > 0
  {
    NotDoneBefore(book, order, start.tab, start.pend, start.inp, n,
                  LineLoads(book, order, start.tab, start.pend, start.inp));
  }

  lemma {:induction false} NotDoneBefore(book: Codebook, order: BitOrder, tab: TabId, pend: seq<bool>, inp: seq<byte>,
                                         n: nat, r: nat)
    requires Sound(book) && n <= r
    requires !Decode(book, tab, pend + Loads(order, inp, n)).done && DoneAfter(book, order, tab, pend, inp, r)
    ensures n < r
  {
  }

  /** Once the line has ended, no more reads are to come. */
  lemma {:induction false} NoMoreReads(book: Codebook, order: BitOrder, tab: TabId, pend: seq<bool>, inp: seq<byte>,
                                       n: nat)
    requires Sound(book) && Decode(book, tab, pend + Loads(order, inp, n)).done
    ensures LineLoads(book, order, tab, pend, inp) <= n
  {
    assert DoneAfter(book, order, tab, pend, inp, n);
  }

  /** The bits after one more read. */
  lemma {:induction false} LoadsNext(order: BitOrder, pend: seq<bool>, inp: seq<byte>, n: nat)
    ensures pend + Loads(order, inp, n + 1)
         == (pend + Loads(order, inp, n)) + CharBits(DataChar(order, AfterChars(inp, n)))
    ensures LastChar(order, inp, n + 1) == DataChar(order, AfterChars(inp, n))
    ensures AfterChars(inp, n + 1) == AfterChar(AfterChars(inp, n))
  {
    SeqAssoc(pend, Loads(order, inp, n), CharBits(DataChar(order, AfterChars(inp, n))));
    AfterCharsNext(inp, n);
  }

  lemma {:induction false} ProgressLoad(book: Codebook, order: BitOrder, start: LineRead, n: nat, now: LineRead,
                                        next: LineRead)
    requires Sound(book) && Progress(book, order, start, n, now) && |now.pend| < 9
    requires next == LineRead(now.codes, now.tab, now.pend + CharBits(DataChar(order, now.inp)),
                              AfterChar(now.inp), DataChar(order, now.inp))
    ensures Progress(book, order, start, n + 1, next)
    ensures ReadsLeft(book, order, start, n) > 0
  {
    var s := start.pend + Loads(order, start.inp, n);
    ReachesShort(book, start.tab, s, now.codes, now.tab, now.pend);
    MoreReads(book, order, start, n);
    ReachesLoad(book, start.tab, s, now.codes, now.tab, now.pend, CharBits(next.last));
    LoadsNext(order, start.pend, start.inp, n);
  }

  lemma {:induction false} ProgressStep(book: Codebook, order: BitOrder, start: LineRead, n: nat, now: LineRead,
                                        e: Entry, next: LineRead)
    requires Sound(book) && Progress(book, order, start, n, now) && |now.pend| >= 9
    requires e == Lookup(book, now.tab, Window(now.pend)) && 1 <= e.bits <= 9
    requires next == now.(codes := if e.code > 0 then now.codes + [e.code] else now.codes,
                          tab := e.next, pend := now.pend[e.bits..])
    ensures e.code != EOL ==> Progress(book, order, start, n, next)
    ensures e.code == EOL ==> next == ReadLine(book, order, start.tab, start.pend, start.inp)
  {
    LookupKind(book, now.tab, Window(now.pend));
    if e.code == EOL {
      ProgressEnd(book, order, start, n, now, e);
    } else {
      ReachesStep(book, start.tab, start.pend + Loads(order, start.inp, n), now.codes, now.tab, now.pend, e);
    }
  }

  lemma {:induction false} ProgressEnd(book: Codebook, order: BitOrder, start: LineRead, n: nat, now: LineRead,
                                       e: Entry)
    requires Sound(book) && Progress(book, order, start, n, now) && |now.pend| >= 9
    requires e == Lookup(book, now.tab, Window(now.pend)) && 1 <= e.bits <= 9 && e.code == EOL
    ensures now.(tab := e.next, pend := now.pend[e.bits..]) == ReadLine(book, order, start.tab, start.pend, start.inp)
  {
    ReachesEnd(book, start.tab, start.pend + Loads(order, start.inp, n), now.codes, now.tab, now.pend, e);
    NoMoreReads(book, order, start.tab, start.pend, start.inp, n);
  }

  // The bit register.

  /** The table index taken from the register is the window of the pending bits. */
  lemma {:induction false} RegisterWindow(x: nat, shift: nat)
    ensures Shr(x, shift) % WINDOW == Window(ToBits(x, shift + 9))
  {
    SplitBits(x, 9, shift);
    assert ToBits(x, shift + 9)[..9] == ToBits(Shr(x, shift), 9);
    ValueOfBits(Shr(x, shift), 9);
    assert Pow2(9) == WINDOW;
  }

  lemma {:induction false} RegisterDrop(x: nat, n: nat, b: nat)
    requires b <= n
    ensures ToBits(x, n)[b..] == ToBits(x, n - b)
  {
    SplitBits(x, b, n - b);
  }

  /** The register after a data character or the pad is shifted in. */
  function Feed(x: nat, n: nat, c: int): (y: nat)
    requires n <= 8 && c < 256
    ensures ToBits(y, n + |CharBits(c)|) == ToBits(x, n) + CharBits(c)
  {
    if c < 0 then
      PadBits();
      AppendInt(x, n, 1, 15);
      ShiftIn(x, 15, 1) % INT
    else
      assert Pow2(8) == 256;
      AppendInt(x, n, c, 8);
      ShiftIn(x, 8, c) % INT
  }

  lemma {:induction false} PadBits()
    ensures ToBits(1, 15) == PAD && 1 < Pow2(15)
  {
    ValueConcat(Zeros(14), [true]);
    ZerosValue(Zeros(14));
    assert [true][..0] == [];
    BitsOfValue(PAD);
    ValueBound(PAD);
  }

  function Sum(s: seq<int>): int
  {
    if s == [] then 0 else Sum(s[..|s| - 1]) + s[|s| - 1]
  }

  /** A value stored in a 16-bit signed variable. */
  function Short(v: int): int
  {
    var u := v % 0x10000;
    if u < 0x8000 then u else u - 0x10000
  }

  /** What fits in the run buffer. */
  function Kept(codes: seq<int>): seq<int>
  {
    if |codes| < MAXRUNS then codes else codes[..MAXRUNS - 1]
  }

  /** The first codes are kept, one fewer than the buffer holds. */
  lemma {:induction false} KeptCodes(codes: seq<int>)
    ensures Kept(codes) <= codes && |Kept(codes)| == if |codes| < MAXRUNS then |codes| else MAXRUNS - 1
  {
  }

  class Reader {
    var x: nat
    var shift: int
    var tab: TabId
    var eolcnt: nat
    ghost const book: Codebook
    const tables: T4LookupTables.LookupTables

    ghost predicate Valid()
      reads this, tables.w1, tables.w2, tables.b1, tables.b2, tables.fill
    {
      Sound(book) && tables.Realises(book) && -9 <= shift
    }

    /** The bits read but not decoded. */
    ghost function Pending(): seq<bool>
      requires -9 <= shift
      reads this
    {
      ToBits(x, shift + 9)
    }

    constructor (ghost book: Codebook, tables: T4LookupTables.LookupTables)
      requires Sound(book) && tables.Realises(book)
      ensures Valid() && this.book == book && this.tables == tables
      ensures Pending() == [] && tab == W1 && eolcnt == 0
    {
      this.book := book;
      this.tables := tables;
      x, shift, tab, eolcnt := 0, -9, W1, 0;
    }

    /** Shift in one data character. */
    method Fetch(f: TFile) returns (c: int)
      requires -9 <= shift < 0
      modifies this`x, this`shift, f`inp
      ensures -9 <= shift
      ensures c == DataChar(f.ibitorder, old(f.inp)) && f.inp == AfterChar(old(f.inp))
      ensures Pending() == old(Pending()) + CharBits(c)
    {
      c := f.GetData();
      x := Feed(x, shift + 9, c);
      shift := shift + (if c < 0 then 15 else 8);
    }

    /** Look up the next nine bits and take the bits of the entry found. */
    method Next() returns (e: Entry)
      requires Valid() && shift >= 0
      modifies this`shift, this`tab
      ensures Valid()
      ensures e == Lookup(book, old(tab), Window(old(Pending())))
      ensures 1 <= e.bits <= 9 && EOL <= e.code
      ensures tab == e.next && Pending() == old(Pending())[e.bits..]
    {
      RegisterWindow(x, shift);
      e := tables.Array(tab)[Shr(x, shift) % WINDOW];
      LookupKind(book, tab, Window(Pending()));
      RegisterDrop(x, shift + 9, e.bits);
      tab := e.next;
      shift := shift - e.bits;
    }

    /** The reader's part of the state of reading a line. */
    ghost function Now(f: TFile, codes: seq<int>, c: int): LineRead
      requires -9 <= shift
      reads this, f
    {
      LineRead(codes, tab, Pending(), f.inp, c)
    }

    /** Read data characters until nine bits are pending. */
    method FetchWindow(f: TFile, c0: int, ghost start: LineRead, ghost n0: nat, ghost codes: seq<int>)
      returns (c: int, ghost n: nat)
      requires Valid() && Progress(book, f.ibitorder, start, n0, Now(f, codes, c0))
      modifies this`x, this`shift, f`inp
      ensures Valid() && shift >= 0
      ensures Progress(book, f.ibitorder, start, n, Now(f, codes, c))
      ensures n > n0 || (n == n0 && shift == old(shift))
    {
      c, n := c0, n0;
      while shift < 0
        invariant Valid()
        invariant Progress(book, f.ibitorder, start, n, Now(f, codes, c))
        invariant n > n0 || (n == n0 && shift == old(shift))
        decreases ReadsLeft(book, f.ibitorder, start, n)
      {
        ghost var now := Now(f, codes, c);
        c := Fetch(f);
        ProgressLoad(book, f.ibitorder, start, n, now, Now(f, codes, c));
        n := n + 1;
      }
    }

    /** Read and decode up to an end of line, storing the codes that fit. */
    method GetCodes(f: TFile, runs: array<int>) returns (p: nat, c: int, ghost codes: seq<int>)
      requires Valid() && runs.Length == MAXRUNS
      modifies this`x, this`shift, this`tab, f`inp, runs
      ensures Valid()
      ensures Now(f, codes, c) == ReadLine(book, f.ibitorder, old(tab), old(Pending()), old(f.inp))
      ensures p == |Kept(codes)| + 1 && runs[..p - 1] == Kept(codes)
    {
      p, c, codes := 0, NO_INPUT, [];
      ghost var start, n := Now(f, codes, c), 0;
      ProgressStart(book, f.ibitorder, start);
      while true
        invariant Valid()
        invariant Progress(book, f.ibitorder, start, n, Now(f, codes, c))
        invariant Stored(runs[..], codes, p)
        decreases ReadsLeft(book, f.ibitorder, start, n), shift + 9
      {
        c, n := FetchWindow(f, c, start, n, codes);
        ghost var now := Now(f, codes, c);
        var e := Next();
        ghost var codes' := if e.code > 0 then codes + [e.code] else codes;
        ProgressStep(book, f.ibitorder, start, n, now, e, Now(f, codes', c));
        if e.code != 0 {
          p := Store(runs, p, e.code, codes);
        }
        if e.code == EOL {
          StoredEnd(runs[..], codes, p);
          break;
        }
        codes := codes';
      }
    }

    /** Combine the codes of a line, count empty lines, and find the value to return. */
    method Conclude(runs: array<int>, count: nat, c: int, ghost codes: seq<int>) returns (ret: int, n: nat, len: int)
      requires runs.Length == MAXRUNS && count <= MAXRUNS && runs[..count] == Kept(codes)
      modifies this`eolcnt, runs
      ensures n == |LineRuns(codes)| <= MAXRUNS && runs[..n] == LineRuns(codes)
      ensures len == Short(Sum(LineRuns(codes)))
      ensures eolcnt == EmptyLines(old(eolcnt), len) && ret == ReturnCode(c, len, eolcnt, n)
    {
      n, len := Combine(runs, count);
      var err := 0;
      if len != 0 {
        eolcnt := 0;
      } else {
        eolcnt := eolcnt + 1;
        if eolcnt >= RTCEOL {
          err := NO_INPUT;
        }
      }
      if c < 0 {
        err := END_OF_DATA;
      }
      ret := if err != 0 then err else n;
    }

    /** Read one scan line. The result is its number of runs, -1 at the fifth empty line in
        a row, or -2 when the last character read was not data. */
    method ReadFaxRuns(f: TFile, runs: array<int>) returns (ret: int, n: nat, len: int)
      requires Valid() && runs.Length == MAXRUNS
      modifies this`x, this`shift, this`tab, this`eolcnt, f`inp, runs
      ensures Valid()
      ensures var r := ReadLine(book, f.ibitorder, old(tab), old(Pending()), old(f.inp));
        && tab == r.tab && Pending() == r.pend && f.inp == r.inp
        && n == |LineRuns(r.codes)| <= MAXRUNS && runs[..n] == LineRuns(r.codes)
        && len == Short(Sum(LineRuns(r.codes)))
        && eolcnt == EmptyLines(old(eolcnt), len)
        && ret == ReturnCode(r.last, len, eolcnt, n)
    {
      hide Sum, LineRuns, ReadLine, Short;
      var p, c;
      ghost var codes;
      p, c, codes := GetCodes(f, runs);
      ghost var now := Now(f, codes, c);
      ret, n, len := Conclude(runs, p - 1, c, codes);
      assert Now(f, codes, c) == now;
    }
  }

  /** The runs a line's codes stand for. */
  function LineRuns(codes: seq<int>): seq<int>
  {
    Recombine(Kept(codes))
  }

  function EmptyLines(before: nat, len: int): nat
  {
    if len != 0 then 0 else before + 1
  }

  function ReturnCode(last: int, len: int, eolcnt: nat, n: nat): int
  {
    if last < 0 then END_OF_DATA else if len == 0 && eolcnt >= RTCEOL then NO_INPUT else n
  }

  /** Take the next run from the codes left in the buffer from place p on: its length, the codes
      left and their place, and the loop's counter. */
  method TakeRun(runs: array<int>, p: nat, n: nat, ghost left: seq<int>)
      returns (v: int, q: nat, m: int, ghost rest: seq<int>)
    requires n == |left| > 0 && p + n <= runs.Length
    requires forall k | 0 <= k < |left| :: left[k] == runs[p + k]
    ensures p < q && q + |rest| == p + n && (m == |rest| || (m == -1 && rest == []))
    ensures forall k | 0 <= k < |rest| :: rest[k] == runs[q + k]
    ensures Same(Recombine(left), [v] + Recombine(rest))
  {
    m := n - 1;
    if runs[p] > 64 && m > 0 {
      m := m - 1;
      v := runs[p] + runs[p + 1] - 2;
      q, rest := p + 2, left[2..];
    } else {
      if runs[p] > 64 {
        m := m - 1;
      }
      v := runs[p] - 1;
      q, rest := p + 1, left[1..];
    }
  }

  /** The runs found so far, with what the codes left will give, and their total. */
  ghost predicate Combined(codes: seq<int>, done: seq<int>, left: seq<int>, len: int)
  {
    Same(done + Recombine(left), Recombine(codes)) && len == Short(Sum(done))
  }

  lemma {:induction false} CombinedNext(codes: seq<int>, done: seq<int>, left: seq<int>, len: int, v: int,
                                        rest: seq<int>)
    requires Combined(codes, done, left, len) && Same(Recombine(left), [v] + Recombine(rest))
    ensures Combined(codes, done + [v], rest, Short(len + v))
  {
    SeqAssoc(done, [v], Recombine(rest));
    Accumulate(done, v, len);
  }

  lemma {:induction false} CombinedStart(codes: seq<int>)
    ensures Combined(codes, [], codes, 0)
  {
    assert [] + Recombine(codes) == Recombine(codes);
  }

  lemma {:induction false} CombinedEnd(codes: seq<int>, done: seq<int>, len: int)
    requires Combined(codes, done, [], len)
    ensures done == Recombine(codes) && len == Short(Sum(Recombine(codes)))
  {
    assert done + [] == done;
  }

  /** Combine make-up and terminating codes in place. */
  method Combine(runs: array<int>, count: nat) returns (size: nat, len: int)
    requires count <= runs.Length
    modifies runs
    ensures size <= count && runs[..size] == Recombine(old(runs[..count]))
    ensures len == Short(Sum(Recombine(old(runs[..count]))))
  {
    ghost var codes := runs[..count];
    ghost var done, left: seq<int> := [], codes;
    var n: int, p: nat, q: nat := count, 0, 0;
    len := 0;
    CombinedStart(codes);
    while n > 0
      invariant q <= p && p + |left| == count && (n == |left| || (n == -1 && left == []))
      invariant forall k | 0 <= k < |left| :: left[k] == runs[p + k]
      invariant runs[..q] == done && Combined(codes, done, left, len)
      decreases n
    {
      var v;
      ghost var rest;
      v, p, n, rest := TakeRun(runs, p, n, left);
      CombinedNext(codes, done, left, len, v, rest);
      runs[q] := v;
      len := Short(len + v);
      q := q + 1;
      done, left := done + [v], rest;
    }
    CombinedEnd(codes, done, len);
    size := q;
  }

  lemma {:induction false} Accumulate(done: seq<int>, r: int, len: int)
    requires len == Short(Sum(done))
    ensures Short(len + r) == Short(Sum(done + [r]))
  {
    assert (done + [r])[..|done|] == done;
  }

  /** The buffer holds the codes so far, or as many as fit. */
  ghost predicate Stored(buf: seq<int>, codes: seq<int>, p: nat)
  {
    && |buf| == MAXRUNS
    && p == (if |codes| < MAXRUNS then |codes| else MAXRUNS)
    && buf[..p] == codes[..p]
  }

  lemma {:induction false} StoredEnd(buf: seq<int>, codes: seq<int>, p: nat)
    requires Stored(buf, codes + [EOL], p)
    ensures p == |Kept(codes)| + 1 && buf[..p - 1] == Kept(codes)
  {
    assert buf[..p - 1] == buf[..p][..p - 1] == (codes + [EOL])[..p][..p - 1];
  }

  /** Store a code if there is room for it. */
  method Store(runs: array<int>, p: nat, code: int, ghost codes: seq<int>) returns (q: nat)
    requires Stored(runs[..], codes, p)
    modifies runs
    ensures Stored(runs[..], codes + [code], q)
  {
    q := p;
    if p < MAXRUNS {
      runs[p] := code;
      q := p + 1;
    }
  }
}
