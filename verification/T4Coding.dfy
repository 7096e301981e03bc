/** The T.4 one-dimensional code of a scan line, as a bit string. */
module T4Coding {
  import Bits
  import opened T4Tables

  /** The longest run that has a code, and the size of a run buffer. */
  const MAXRUNLEN := 2623
  const MAXRUNS := 8192

  function Clip(r: int): int
  {
    if r > MAXRUNLEN then MAXRUNLEN else r
  }

  function CodeBits(t: seq<T4Code>, k: nat): seq<bool>
    requires k < CODES < |t|
  {
    Bits.ToBits(t[k].code, t[k].bits)
  }

  /** Runs over 63 take a make-up code, and every run a terminating code. */
  function RunBits(t: seq<T4Code>, r: int): seq<bool>
    requires CODES < |t|
  {
    var c := Clip(r);
    (if c > 63 then CodeBits(t, 63 + c / 64) else []) + CodeBits(t, c % 64)
  }

  /** The colour of run n of a line whose first run has colour c. */
  function ColourAt(c: Colour, n: nat): Colour
  {
    if n % 2 == 0 then c else Other(c)
  }

  /** The codes of the runs of a scan line whose first run has colour c. */
  function RunCodes(book: Codebook, c: Colour, runs: seq<int>): (codes: seq<seq<bool>>)
    requires |book.white| > CODES && |book.black| > CODES
    ensures |codes| == |runs|
  {
    seq(|runs|, i requires 0 <= i < |runs| => RunBits(book.Get(ColourAt(c, i)), runs[i]))
  }

  function LineBits(book: Codebook, c: Colour, runs: seq<int>): seq<bool>
    requires |book.white| > CODES && |book.black| > CODES
  {
    Bits.Flatten(RunCodes(book, c, runs))
  }

  lemma {:induction false} LineBitsAppend(book: Codebook, c: Colour, runs: seq<int>, r: int)
    requires |book.white| > CODES && |book.black| > CODES
    ensures LineBits(book, c, runs + [r])
         == LineBits(book, c, runs) + RunBits(book.Get(ColourAt(c, |runs|)), r)
  {
    var codes, last := RunCodes(book, c, runs), RunBits(book.Get(ColourAt(c, |runs|)), r);
    assert RunCodes(book, c, runs + [r]) == codes + [last];
    Bits.FlattenSnoc(codes, last);
  }
}
