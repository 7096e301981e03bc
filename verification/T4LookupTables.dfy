/** The decoder's five lookup tables, built in place as newDECODER builds them. */
module T4LookupTables {
  import Bits
  import opened T4Tables
  import opened T4Decoder

  /** The five tables, 512 entries each. */
  class LookupTables {
    const w1: array<Entry>
    const w2: array<Entry>
    const b1: array<Entry>
    const b2: array<Entry>
    const fill: array<Entry>

    function Array(tab: TabId): array<Entry>
    {
      match tab
      case W1 => w1
      case W2 => w2
      case B1 => b1
      case B2 => b2
      case Fill => fill
    }

    /** Every entry of every table is the one the code book calls for. */
    ghost predicate Realises(book: Codebook)
      requires Sound(book)
      reads w1, w2, b1, b2, fill
    {
      forall tab: TabId :: Array(tab).Length == WINDOW &&
        forall i | 0 <= i < WINDOW :: Array(tab)[i] == Lookup(book, tab, i)
    }

    /** Build the tables of a code book. */
    constructor (book: Codebook)
      requires Sound(book)
      ensures Realises(book)
      ensures fresh(w1) && fresh(w2) && fresh(b1) && fresh(b2) && fresh(fill)
    {
      w1 := new Entry[WINDOW](_ => Entry(0, 0, W1));
      w2 := new Entry[WINDOW](_ => Entry(0, 0, W1));
      b1 := new Entry[WINDOW](_ => Entry(0, 0, W1));
      b2 := new Entry[WINDOW](_ => Entry(0, 0, W1));
      fill := new Entry[WINDOW](_ => Entry(0, 0, W1));
      new;
      BuildColour(book.white, White, w1, w2);
      BuildColour(book.black, Black, b1, b2);
      AddCode(fill, 0, 9, UNDEFINED);
      InitFill(fill);
    }
  }

  /** The two tables of a colour, from nothing. */
  method BuildColour(t: seq<T4Code>, c: Colour, t1: array<Entry>, t2: array<Entry>)
    requires Decodable(t) && t1 != t2 && t1.Length == t2.Length == WINDOW
    modifies t1, t2
    ensures FirstBuilt(t1, t, c, CODES) && SecondBuilt(t2, t, c, CODES)
  {
    StartFirst(t1, t, c);
    StartSecond(t2, t, c);
    InitColour(t, c, t1, t2);
  }

  /** Write an entry at every window that starts with a code word. */
  method AddCode(tab: array<Entry>, cword: nat, shift: nat, e: Entry)
    requires tab.Length == WINDOW && Shl(cword + 1, shift) <= WINDOW
    modifies tab
    ensures forall i | 0 <= i < WINDOW ::
              tab[i] == if Shl(cword, shift) <= i < Shl(cword + 1, shift) then e else old(tab[i])
  {
    var i, n := Shl(cword, shift), Shl(1, shift);
    ShlNext(cword, shift);
    var end := i + n;
    while n > 0
      invariant 0 <= n && i + n == end
      invariant Shl(cword, shift) <= i
      invariant forall k | 0 <= k < WINDOW ::
                  tab[k] == if Shl(cword, shift) <= k < i then e else old(tab[k])
    {
      tab[i] := e;
      i := i + 1;
      n := n - 1;
    }
  }

  lemma {:induction false} ShlNext(v: nat, n: nat)
    ensures Shl(v + 1, n) == Shl(v, n) + Shl(1, n)
    ensures Shl(1, n) == Bits.Pow2(n)
  {
    ShlIsMul(v, n);
    ShlIsMul(v + 1, n);
    ShlIsMul(1, n);
  }

  /** The fill table: zeros continue the fill, and a one ends the line. */
  method InitFill(fill: array<Entry>)
    requires fill.Length == WINDOW
    requires forall i | 0 <= i < WINDOW :: fill[i] == UNDEFINED
    modifies fill
    ensures forall i | 0 <= i < WINDOW :: fill[i] == FillEntry(9, i)
  {
    AddCode(fill, 0, 0, Entry(0, 9, Fill));
    for i := 0 to 9
      invariant forall k | 0 <= k < WINDOW :: fill[k] == FillEntry(i, k)
    {
      Bits.Pow2Mono(i + 1, 9);
      assert Bits.Pow2(9) == WINDOW;
      ShlNext(1, i);
      AddCode(fill, 1, i, Entry(EOL, 9 - i, W1));
    }
  }

  /** The table is the first one of colour c once the first n codes are in. */
  ghost predicate FirstBuilt(tab: array<Entry>, t: seq<T4Code>, c: Colour, n: nat)
    requires n < |t|
    reads tab
  {
    tab.Length == WINDOW && forall i | 0 <= i < WINDOW :: tab[i] == FirstEntry(t, c, n, i)
  }

  ghost predicate SecondBuilt(tab: array<Entry>, t: seq<T4Code>, c: Colour, n: nat)
    requires n < |t|
    reads tab
  {
    tab.Length == WINDOW && forall i | 0 <= i < WINDOW :: tab[i] == SecondEntry(t, c, n, i)
  }

  /** Before any code: undefined, but zeros hand over to the second table. */
  method StartFirst(tab: array<Entry>, ghost t: seq<T4Code>, c: Colour)
    requires tab.Length == WINDOW && |t| > 0
    modifies tab
    ensures FirstBuilt(tab, t, c, 0)
  {
    AddCode(tab, 0, 9, UNDEFINED);
    AddCode(tab, 0, 0, Entry(0, 4, Second(c)));
  }

  /** Before any code: undefined, but seven more zeros are fill. */
  method StartSecond(tab: array<Entry>, ghost t: seq<T4Code>, c: Colour)
    requires tab.Length == WINDOW && |t| > 0
    modifies tab
    ensures SecondBuilt(tab, t, c, 0)
  {
    AddCode(tab, 0, 9, UNDEFINED);
    AddCode(tab, 0, 2, Entry(0, 7, Fill));
  }

  /** Enter a code of at most nine bits. */
  method InitShort(t: seq<T4Code>, c: Colour, p: nat, t1: array<Entry>)
    requires Decodable(t) && p < CODES && t[p].bits <= 9 && FirstBuilt(t1, t, c, p)
    modifies t1
    ensures FirstBuilt(t1, t, c, p + 1)
  {
    assert GoodEntry(t, p);
    ShortRange(t[p]);
    AddCode(t1, t[p].code, 9 - t[p].bits, Entry(t[p].rlen + 1, t[p].bits, Next(c, p)));
  }

  /** Enter a longer code: its first nine bits lead to the second table. */
  method InitLong(t: seq<T4Code>, c: Colour, p: nat, t1: array<Entry>, t2: array<Entry>)
    requires Decodable(t) && p < CODES && t[p].bits > 9 && t1 != t2
    requires FirstBuilt(t1, t, c, p) && SecondBuilt(t2, t, c, p)
    modifies t1, t2
    ensures FirstBuilt(t1, t, c, p + 1) && SecondBuilt(t2, t, c, p + 1)
  {
    assert GoodEntry(t, p);
    LongPrefix(t[p]);
    AddCode(t1, Bits.Shr(t[p].code, t[p].bits - 9), 0, Entry(0, 4, Second(c)));
    AddCode(t2, t[p].code, 13 - t[p].bits, Entry(t[p].rlen + 1, t[p].bits - 4, Next(c, p)));
  }

  /** Enter code p of a colour's table. */
  method InitCode(t: seq<T4Code>, c: Colour, p: nat, t1: array<Entry>, t2: array<Entry>)
    requires Decodable(t) && p < CODES && t1 != t2
    requires FirstBuilt(t1, t, c, p) && SecondBuilt(t2, t, c, p)
    modifies t1, t2
    ensures FirstBuilt(t1, t, c, p + 1) && SecondBuilt(t2, t, c, p + 1)
  {
    if t[p].bits <= 9 {
      InitShort(t, c, p, t1);
    } else {
      InitLong(t, c, p, t1, t2);
    }
  }

  /** The two tables of a colour from its code table. */
  method InitColour(t: seq<T4Code>, c: Colour, t1: array<Entry>, t2: array<Entry>)
    requires Decodable(t) && t1 != t2
    requires FirstBuilt(t1, t, c, 0) && SecondBuilt(t2, t, c, 0)
    modifies t1, t2
    ensures FirstBuilt(t1, t, c, CODES) && SecondBuilt(t2, t, c, CODES)
  {
    var p := 0;
    while t[p].code != 0
      invariant p <= CODES
      invariant FirstBuilt(t1, t, c, p) && SecondBuilt(t2, t, c, p)
      decreases CODES - p
    {
      assert p < CODES;
      InitCode(t, c, p, t1, t2);
      p := p + 1;
    }
    assert p < CODES ==> GoodEntry(t, p);
  }
}
