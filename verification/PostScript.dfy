/** PostScript images: the line compressor, its hexadecimal output, and the decoder that is
    sent ahead of the image. */
module PostScript {
  import opened Bits
  import T4Coding

  const MAXBITS := T4Coding.MAXRUNS / 8 + 1

  // Hexadecimal text.

  const HEXCHARS := "0123456789abcdef"

  /** The value of a hexadecimal digit, or -1. */
  function DigitOf(c: char): int
  {
    if '0' <= c <= '9' then c as int - '0' as int
    else if 'a' <= c <= 'f' then c as int - 'a' as int + 10
    else if 'A' <= c <= 'F' then c as int - 'A' as int + 10
    else -1
  }

  /** The digits of a text, anything else left out. */
  function Digits(text: string): seq<int>
  {
    if text == [] then []
    else Digits(text[..|text| - 1]) + (if DigitOf(text[|text| - 1]) >= 0 then [DigitOf(text[|text| - 1])] else [])
  }

  lemma {:induction false} DigitsRange(text: string)
    ensures forall i | 0 <= i < |Digits(text)| :: 0 <= Digits(text)[i] < 16
  {
    if text != [] { DigitsRange(text[..|text| - 1]); }
  }

  /** Two digits are a byte. */
  function Pairs(digits: seq<int>): seq<byte>
    requires forall i | 0 <= i < |digits| :: 0 <= digits[i] < 16
  {
    if |digits| < 2 then [] else [16 * digits[0] + digits[1]] + Pairs(digits[2..])
  }

  /** The bytes that readhexstring takes from a text. */
  function Unhex(text: string): seq<byte>
  {
    DigitsRange(text);
    Pairs(Digits(text))
  }

  lemma {:induction false} PairsAppend(digits: seq<int>, a: int, b: int)
    requires forall i | 0 <= i < |digits| :: 0 <= digits[i] < 16
    requires |digits| % 2 == 0 && 0 <= a < 16 && 0 <= b < 16
    ensures Pairs(digits + [a, b]) == Pairs(digits) + [16 * a + b]
  {
    if digits == [] {
      assert [] + [a, b] == [a, b] && [a, b][2..] == [];
    } else {
      assert (digits + [a, b])[2..] == digits[2..] + [a, b];
      PairsAppend(digits[2..], a, b);
      SeqAssoc([16 * digits[0] + digits[1]], Pairs(digits[2..]), [16 * a + b]);
    }
  }

  lemma {:induction false} DigitAdded(text: string, d: nat)
    requires d < 16
    ensures Digits(text + [HEXCHARS[d]]) == Digits(text) + [d]
  {
    assert (text + [HEXCHARS[d]])[..|text|] == text;
  }

  lemma {:induction false} LineBreakAdded(text: string)
    ensures Digits(text + ['\n']) == Digits(text)
  {
    assert (text + ['\n'])[..|text|] == text;
  }

  /** Whole bytes so far. */
  predicate Even(text: string)
  {
    |Digits(text)| % 2 == 0
  }

  /** Writing a byte adds that byte, with or without a line break. */
  lemma {:induction false} HexAdded(text: string, c: byte)
    requires Even(text)
    ensures var t := text + [HEXCHARS[c / 16]] + [HEXCHARS[c % 16]];
      && Even(t) && Unhex(t) == Unhex(text) + [c]
      && Even(t + ['\n']) && Unhex(t + ['\n']) == Unhex(text) + [c]
  {
    var t := text + [HEXCHARS[c / 16]];
    DigitAdded(text, c / 16);
    DigitAdded(t, c % 16);
    DigitsRange(text);
    assert Digits(text) + [c / 16] + [c % 16] == Digits(text) + [c / 16, c % 16];
    PairsAppend(Digits(text), c / 16, c % 16);
    LineBreakAdded(t + [HEXCHARS[c % 16]]);
  }

  // The decoder.

  datatype Option<T> = None | Some(value: T)

  /** A line buffer and the input left. */
  datatype Played = Played(buf: seq<byte>, rest: seq<byte>)

  function Patch(buf: seq<byte>, index: nat, data: seq<byte>): (r: seq<byte>)
    requires index + |data| <= |buf|
    ensures |r| == |buf|
  {
    buf[..index] + data + buf[index + |data|..]
  }

  /** readbuf, from the given position in the line buffer on. Input that ends too early or
      runs past the end of the buffer is an error. */
  function Play(coded: seq<byte>, buf: seq<byte>, index: nat): (r: Option<Played>)
    ensures r.Some? ==> |r.value.buf| == |buf|
    decreases |coded|
  {
    if index >= |buf| then Some(Played(buf, coded))
    else if coded == [] then None
    else
      var v := coded[0] as nat;
      if v == 0 then Play(coded[1..], buf, index + |buf|)
      else if v <= 127 then
        if 1 + v <= |coded| && index + v <= |buf|
        then Play(coded[1 + v..], Patch(buf, index, coded[1..1 + v]), index + v)
        else None
      else if v == 255 then
        if 3 <= |coded| && index + coded[1] <= |buf|
        then Play(coded[3..], Patch(buf, index, Copies(coded[2], coded[1])), index + coded[1])
        else None
      else Play(coded[1..], buf, index + (v - 127))
  }

  /** Playing code takes the decoder from one state to another, whatever follows. */
  ghost predicate Plays(code: seq<byte>, buf: seq<byte>, index: nat, buf': seq<byte>, index': nat)
  {
    forall rest: seq<byte> :: PlaysOn(code, buf, index, buf', index', rest)
  }

  ghost predicate PlaysOn(code: seq<byte>, buf: seq<byte>, index: nat, buf': seq<byte>, index': nat, rest: seq<byte>)
  {
    Play(code + rest, buf, index) == Play(rest, buf', index')
  }

  lemma {:induction false} PlaysNothing(buf: seq<byte>, index: nat)
    ensures Plays([], buf, index, buf, index)
  {
    forall rest: seq<byte> ensures PlaysOn([], buf, index, buf, index, rest) {
      assert [] + rest == rest;
    }
  }

  lemma {:induction false} PlaysThen(a: seq<byte>, b: seq<byte>, buf: seq<byte>, index: nat, buf': seq<byte>,
                                     index': nat,
                                     buf'': seq<byte>, index'': nat)
    requires Plays(a, buf, index, buf', index') && Plays(b, buf', index', buf'', index'')
    ensures Plays(a + b, buf, index, buf'', index'')
  {
    forall rest: seq<byte> ensures PlaysOn(a + b, buf, index, buf'', index'', rest) {
      SeqAssoc(a, b, rest);
      assert PlaysOn(a, buf, index, buf', index', b + rest);
      assert PlaysOn(b, buf', index', buf'', index'', rest);
    }
  }

  lemma {:induction false} DataPlays(data: seq<byte>, buf: seq<byte>, index: nat)
    requires 0 < |data| <= 127 && index + |data| <= |buf|
    ensures Plays([|data| as byte] + data, buf, index, Patch(buf, index, data), index + |data|)
  {
    var code, buf', end := [|data| as byte] + data, Patch(buf, index, data), index + |data|;
    forall rest: seq<byte> ensures PlaysOn(code, buf, index, buf', end, rest) {
      assert (code + rest)[1..1 + |data|] == data;
      assert (code + rest)[1 + |data|..] == rest;
    }
  }

  lemma {:induction false} RunPlays(count: nat, value: byte, buf: seq<byte>, index: nat)
    requires 0 < count <= 255 && index + count <= |buf|
    ensures Plays([255, count, value], buf, index, Patch(buf, index, Copies(value, count)), index + count)
  {
    var code: seq<byte>, buf', end := [255, count, value], Patch(buf, index, Copies(value, count)), index + count;
    forall rest: seq<byte> ensures PlaysOn(code, buf, index, buf', end, rest) {
      assert (code + rest)[3..] == rest;
    }
  }

  lemma {:induction false} SkipPlays(count: nat, buf: seq<byte>, index: nat)
    requires 0 < count <= 127 && index < |buf|
    ensures Plays([count + 127], buf, index, buf, index + count)
  {
    var code: seq<byte>, end := [count + 127], index + count;
    forall rest: seq<byte> ensures PlaysOn(code, buf, index, buf, end, rest) {
      assert (code + rest)[1..] == rest;
    }
  }

  // The compressor.

  function Complement(b: byte): byte
  {
    255 - b
  }

  /** Every bit of the complement is the other one. */
  lemma {:induction false} ComplementBits(b: byte, k: nat)
    requires k < 8
    ensures ToBits(Complement(b), 8)[k] != ToBits(b, 8)[k]
  {
    assert Pow2(8) == 256;
    OtherBits(b, Complement(b), 8, k);
  }

  lemma {:induction false} OtherBits(v: nat, w: nat, n: nat, k: nat)
    requires k < n && v + w == Pow2(n) - 1
    ensures ToBits(v, n)[k] != ToBits(w, n)[k]
  {
    assert v / 2 + w / 2 == Pow2(n - 1) - 1 && v % 2 != w % 2;
    if k < n - 1 { OtherBits(v / 2, w / 2, n - 1, k); }
  }

  /** The bytes a line is shown as. */
  function Invert(line: seq<byte>): (r: seq<byte>)
    ensures |r| == |line|
  {
    seq(|line|, i requires 0 <= i < |line| => Complement(line[i]))
  }

  /** The decoder's buffer when the first l bytes of a line are in place. */
  function Mix(line: seq<byte>, buf: seq<byte>, l: nat): (r: seq<byte>)
    requires l <= |line| == |buf|
    ensures |r| == |buf|
  {
    Invert(line)[..l] + buf[l..]
  }

  lemma {:induction false} MixPatch(line: seq<byte>, buf: seq<byte>, l: nat, k: nat)
    requires |line| == |buf| && l + k <= |buf|
    ensures Patch(Mix(line, buf, l), l, Invert(line)[l..l + k]) == Mix(line, buf, l + k)
  {
  }

  /** Where a line repeats the one before it, the buffer needs no change. */
  lemma {:induction false} MixSkip(line: seq<byte>, last: seq<byte>, l: nat, k: nat)
    requires |line| == |last| && l + k <= |line|
    requires forall i | l <= i < l + k :: line[i] == last[i]
    ensures Mix(line, Invert(last), l) == Mix(line, Invert(last), l + k)
  {
  }

  /** What the decoder's buffer may hold before a line: the line before or, at the top of a
      page, anything. */
  predicate Before(buf: seq<byte>, line: seq<byte>, last: seq<byte>, top: bool)
  {
    |buf| == |line| && (top || buf == Invert(last))
  }

  /** What is coded so far brings the decoder to position l of the line, from the line
      before or, at the top of a page, from anything; and it is at most one byte in 127
      longer, apart from spare bytes. */
  ghost predicate CodedTo(code: seq<byte>, line: seq<byte>, last: seq<byte>, top: bool, l: nat, spare: nat)
    requires |last| == |line|
  {
    && l <= |line|
    && (forall buf: seq<byte> :: Before(buf, line, last, top) ==> CodedFrom(code, line, buf, l))
    && |code| <= l + l / 127 + spare
  }

  ghost predicate CodedFrom(code: seq<byte>, line: seq<byte>, buf: seq<byte>, l: nat)
    requires |buf| == |line|
  {
    l <= |line| && Plays(code, buf, 0, Mix(line, buf, l), l)
  }

  lemma {:induction false} NothingCoded(line: seq<byte>, last: seq<byte>, top: bool)
    requires |last| == |line|
    ensures CodedTo([], line, last, top, 0, 0)
  {
    forall buf: seq<byte> | Before(buf, line, last, top) ensures CodedFrom([], line, buf, 0) {
      PlaysNothing(buf, 0);
      assert Mix(line, buf, 0) == buf;
    }
  }

  /** The code of k bytes of data; none for no data. */
  function DataCode(line: seq<byte>, l: nat, k: nat): seq<byte>
    requires l + k <= |line| && k <= 127
  {
    if k == 0 then [] else [k] + Invert(line)[l..l + k]
  }

  lemma {:induction false} DataFrom(code: seq<byte>, line: seq<byte>, buf: seq<byte>, l: nat, k: nat)
    requires |buf| == |line| && CodedFrom(code, line, buf, l) && l + k <= |line| && k <= 127
    ensures CodedFrom(code + DataCode(line, l, k), line, buf, l + k)
  {
    if k > 0 {
      DataPlays(Invert(line)[l..l + k], Mix(line, buf, l), l);
      MixPatch(line, buf, l, k);
      PlaysThen(code, DataCode(line, l, k), buf, 0, Mix(line, buf, l), l, Mix(line, buf, l + k), l + k);
    } else {
      assert code + [] == code;
    }
  }

  lemma {:induction false} RunFrom(code: seq<byte>, line: seq<byte>, buf: seq<byte>, l: nat, k: nat)
    requires |buf| == |line| && CodedFrom(code, line, buf, l) && l + k <= |line| && 0 < k <= 255
    requires forall i | l <= i < l + k :: line[i] == line[l]
    ensures CodedFrom(code + [255, k, Complement(line[l])], line, buf, l + k)
  {
    RunPlays(k, Complement(line[l]), Mix(line, buf, l), l);
    assert Copies(Complement(line[l]), k) == Invert(line)[l..l + k];
    MixPatch(line, buf, l, k);
    PlaysThen(code, [255, k, Complement(line[l])], buf, 0, Mix(line, buf, l), l, Mix(line, buf, l + k), l + k);
  }

  lemma {:induction false} SkipFrom(code: seq<byte>, line: seq<byte>, last: seq<byte>, l: nat, k: nat)
    requires |last| == |line| && CodedFrom(code, line, Invert(last), l) && l + k <= |line| && 0 < k <= 127
    requires forall i | l <= i < l + k :: line[i] == last[i]
    ensures CodedFrom(code + [k + 127], line, Invert(last), l + k)
  {
    SkipPlays(k, Mix(line, Invert(last), l), l);
    MixSkip(line, last, l, k);
    PlaysThen(code, [k + 127], Invert(last), 0, Mix(line, Invert(last), l), l, Mix(line, Invert(last), l + k), l + k);
  }

  lemma {:induction false} DivMono(a: nat, b: nat)
    requires a <= b
    ensures a / 127 <= b / 127
  {
  }

  lemma {:induction false} DivStep(a: nat)
    ensures (a + 127) / 127 == a / 127 + 1
  {
  }

  /** A full chunk of data. */
  lemma {:induction false} ChunkTo(code: seq<byte>, line: seq<byte>, last: seq<byte>, top: bool, l: nat)
    requires |last| == |line| && CodedTo(code, line, last, top, l, 0) && l + 127 <= |line|
    ensures CodedTo(code + DataCode(line, l, 127), line, last, top, l + 127, 0)
  {
    forall buf: seq<byte> | Before(buf, line, last, top)
      ensures CodedFrom(code + DataCode(line, l, 127), line, buf, l + 127)
    {
      assert CodedFrom(code, line, buf, l);
      DataFrom(code, line, buf, l, 127);
    }
    DivStep(l);
  }

  /** Up to 127 bytes of data, perhaps none, may take a byte more. */
  lemma {:induction false} DataTo(code: seq<byte>, line: seq<byte>, last: seq<byte>, top: bool, l: nat, i: nat)
    requires |last| == |line| && CodedTo(code, line, last, top, l, 0) && l <= i <= |line| && i - l <= 127
    ensures CodedTo(code + DataCode(line, l, i - l), line, last, top, i, 1)
  {
    var c := code + DataCode(line, l, i - l);
    forall buf: seq<byte> | Before(buf, line, last, top) ensures CodedFrom(c, line, buf, i) {
      assert CodedFrom(code, line, buf, l);
      DataFrom(code, line, buf, l, i - l);
    }
    DivMono(l, i);
  }

  /** A run makes up for the byte more. */
  lemma {:induction false} RunTo(code: seq<byte>, line: seq<byte>, last: seq<byte>, top: bool, i: nat, j: nat)
    requires |last| == |line| && CodedTo(code, line, last, top, i, 1) && 4 < j - i <= 255
    requires i < j <= |line| && AllEqual(line, i, j)
    ensures CodedTo(code + [255, j - i, Complement(line[i])], line, last, top, j, 0)
  {
    var c := code + [255, j - i, Complement(line[i])];
    forall buf: seq<byte> | Before(buf, line, last, top) ensures CodedFrom(c, line, buf, j) {
      assert CodedFrom(code, line, buf, i);
      RunFrom(code, line, buf, i, j - i);
    }
    DivMono(i, j);
  }

  predicate AllEqual(line: seq<byte>, i: nat, j: nat)
    requires i < j <= |line|
  {
    forall k | i <= k < j :: line[k] == line[i]
  }

  predicate SameBetween(line: seq<byte>, last: seq<byte>, i: nat, j: nat)
    requires i <= j <= |line| && |last| == |line|
  {
    forall k | i <= k < j :: line[k] == last[k]
  }

  /** So does a copy from the line before. */
  lemma {:induction false} SkipTo(code: seq<byte>, line: seq<byte>, last: seq<byte>, top: bool, i: nat, j: nat)
    requires |last| == |line| && CodedTo(code, line, last, top, i, 1) && !top && 2 < j - i <= 127
    requires i < j <= |line| && SameBetween(line, last, i, j)
    ensures CodedTo(code + [j - i + 127], line, last, top, j, 0)
  {
    var c := code + [j - i + 127];
    forall buf: seq<byte> | Before(buf, line, last, top) ensures CodedFrom(c, line, buf, j) {
      assert CodedFrom(code, line, buf, i);
      SkipFrom(code, line, last, i, j - i);
    }
    DivMono(i, j);
  }

  /** The code of a line: the decoder ends with the line in its buffer, having read this
      code and no more; and at most one byte in 127 is added. */
  ghost predicate CodesLine(code: seq<byte>, line: seq<byte>, last: seq<byte>, top: bool)
    requires |last| == |line|
  {
    && (forall buf: seq<byte> :: Before(buf, line, last, top) ==> DecodesLine(code, line, buf))
    && |code| <= |line| + (|line| + 126) / 127
  }

  ghost predicate DecodesLine(code: seq<byte>, line: seq<byte>, buf: seq<byte>)
  {
    forall rest: seq<byte> :: DecodesOn(code, line, buf, rest)
  }

  ghost predicate DecodesOn(code: seq<byte>, line: seq<byte>, buf: seq<byte>, rest: seq<byte>)
  {
    Play(code + rest, buf, 0) == Some(Played(Invert(line), rest))
  }

  lemma {:induction false} AllCoded(code: seq<byte>, line: seq<byte>, buf: seq<byte>)
    requires |buf| == |line| && CodedFrom(code, line, buf, |line|)
    ensures DecodesLine(code, line, buf)
  {
    assert Mix(line, buf, |line|) == Invert(line);
    forall rest: seq<byte> ensures DecodesOn(code, line, buf, rest) {
      assert PlaysOn(code, buf, 0, Mix(line, buf, |line|), |line|, rest);
    }
  }

  /** The data left at the end complete the line. */
  lemma {:induction false} LastData(code: seq<byte>, line: seq<byte>, last: seq<byte>, top: bool, l: nat)
    requires |last| == |line| && CodedTo(code, line, last, top, l, 0) && |line| - l <= 127
    ensures CodesLine(code + DataCode(line, l, |line| - l), line, last, top)
  {
    var c := code + DataCode(line, l, |line| - l);
    forall buf: seq<byte> | Before(buf, line, last, top) ensures DecodesLine(c, line, buf) {
      assert CodedFrom(code, line, buf, l);
      DataFrom(code, line, buf, l, |line| - l);
      AllCoded(c, line, buf);
    }
    if l < |line| {
      DivMono(l + 127, |line| + 126);
      DivStep(l);
    } else {
      DivMono(l, |line| + 126);
    }
  }

  /** A repeated line takes one byte. */
  lemma {:induction false} RepeatLine(line: seq<byte>)
    requires line != []
    ensures CodesLine([0], line, line, false)
  {
    var code: seq<byte> := [0];
    forall buf: seq<byte> | Before(buf, line, line, false) ensures DecodesLine(code, line, buf) {
      forall rest: seq<byte> ensures DecodesOn(code, line, buf, rest) {
        assert (code + rest)[1..] == rest;
      }
    }
  }

  // What the code of a line is made of.

  /** Bytes sent as they are, copies of the line before, and equal bytes. */
  datatype Piece = Literal(n: nat) | Copy(n: nat) | Equal(n: nat)

  function Length(pieces: seq<Piece>): nat
  {
    if pieces == [] then 0 else Length(pieces[..|pieces| - 1]) + pieces[|pieces| - 1].n
  }

  /** No copy of more than two bytes and no run of more than four begins at byte p. */
  predicate Plain(line: seq<byte>, last: seq<byte>, top: bool, p: nat)
    requires |last| == |line|
  {
    && (top || p + 3 > |line| || !SameBetween(line, last, p, p + 3))
    && (p + 5 > |line| || !AllEqual(line, p, p + 5))
  }

  predicate AllPlain(line: seq<byte>, last: seq<byte>, top: bool, i: nat, j: nat)
    requires |last| == |line|
  {
    forall p | i <= p < j :: Plain(line, last, top, p)
  }

  /** The piece from byte i on is the one that the rules ask for: a copy of more than two bytes if
      there is one, as long as can be; otherwise a run of more than four, as long as can be; and
      otherwise bytes where neither begins. */
  predicate RightPiece(line: seq<byte>, last: seq<byte>, top: bool, i: nat, piece: Piece)
    requires |last| == |line|
  {
    var j := i + piece.n;
    && 0 < piece.n && j <= |line|
    && match piece
       case Literal(n) => n <= 127 && AllPlain(line, last, top, i, j)
       case Copy(n) =>
         2 < n <= 127 && !top && SameBetween(line, last, i, j) && (j == |line| || n == 127 || line[j] != last[j])
       case Equal(n) =>
         && 4 < n <= 255 && AllEqual(line, i, j) && (j == |line| || n == 255 || line[j] != line[i])
         && (top || i + 3 > |line| || !SameBetween(line, last, i, i + 3))
  }

  /** The first bytes of the line, divided as the rules ask for. Two pieces of bytes sent as they
      are only follow one another where the first cannot be longer. */
  predicate Divided(line: seq<byte>, last: seq<byte>, top: bool, pieces: seq<Piece>)
    requires |last| == |line|
  {
    pieces == [] ||
    (var init, piece := pieces[..|pieces| - 1], pieces[|pieces| - 1];
     && Divided(line, last, top, init) && RightPiece(line, last, top, Length(init), piece)
     && (init != [] && init[|init| - 1].Literal? && piece.Literal? ==> init[|init| - 1].n == 127))
  }

  function PieceCode(line: seq<byte>, i: nat, piece: Piece): seq<byte>
  {
    match piece
    case Literal(n) => if i + n <= |line| && n <= 127 then DataCode(line, i, n) else []
    case Copy(n) => if n <= 127 then [n + 127] else []
    case Equal(n) => if i < |line| && n <= 255 then [255, n, Complement(line[i])] else []
  }

  function PiecesCode(line: seq<byte>, pieces: seq<Piece>): seq<byte>
  {
    if pieces == [] then []
    else
      var init := pieces[..|pieces| - 1];
      PiecesCode(line, init) + PieceCode(line, Length(init), pieces[|pieces| - 1])
  }

  /** The line is divided up to byte l, the bytes from l to i are plain, and this is the code. */
  predicate DividedTo(line: seq<byte>, last: seq<byte>, top: bool, pieces: seq<Piece>, l: nat, i: nat, code: seq<byte>)
    requires |last| == |line|
  {
    && Divided(line, last, top, pieces) && Length(pieces) == l <= i <= |line| && i - l <= 127
    && AllPlain(line, last, top, l, i) && Same(code, PiecesCode(line, pieces))
    && (pieces != [] && pieces[|pieces| - 1].Literal? ==> pieces[|pieces| - 1].n == 127)
  }

  function WithLiteral(pieces: seq<Piece>, n: nat): seq<Piece>
  {
    if n == 0 then pieces else pieces + [Literal(n)]
  }

  lemma {:induction false} PiecesSnoc(line: seq<byte>, last: seq<byte>, top: bool, pieces: seq<Piece>, piece: Piece)
    requires |last| == |line|
    ensures var r := pieces + [piece];
      && Length(r) == Length(pieces) + piece.n
      && PiecesCode(line, r) == PiecesCode(line, pieces) + PieceCode(line, Length(pieces), piece)
      && (Divided(line, last, top, r) <==>
            && Divided(line, last, top, pieces) && RightPiece(line, last, top, Length(pieces), piece)
            && (pieces != [] && pieces[|pieces| - 1].Literal? && piece.Literal? ==> pieces[|pieces| - 1].n == 127))
  {
    assert (pieces + [piece])[..|pieces|] == pieces;
  }

  /** The bytes left over become a piece. */
  lemma {:induction false} LiteralPut(line: seq<byte>, last: seq<byte>, top: bool, pieces: seq<Piece>, l: nat, i: nat,
                                      code: seq<byte>)
    requires |last| == |line| && DividedTo(line, last, top, pieces, l, i, code)
    ensures var r := WithLiteral(pieces, i - l);
      && Divided(line, last, top, r) && Length(r) == i && Same(code + DataCode(line, l, i - l), PiecesCode(line, r))
  {
    hide Divided, PiecesCode, Length, Plain;
    if l < i {
      PiecesSnoc(line, last, top, pieces, Literal(i - l));
    } else {
      assert code + [] == code;
    }
  }

  /** One more plain byte. */
  lemma {:induction false} PlainNext(line: seq<byte>, last: seq<byte>, top: bool, pieces: seq<Piece>, l: nat, i: nat,
                                     code: seq<byte>)
    requires |last| == |line| && DividedTo(line, last, top, pieces, l, i, code)
    requires i < |line| && i - l < 127 && Plain(line, last, top, i)
    ensures DividedTo(line, last, top, pieces, l, i + 1, code)
  {
  }

  /** As many plain bytes as one piece can have. */
  lemma {:induction false} ChunkPut(line: seq<byte>, last: seq<byte>, top: bool, pieces: seq<Piece>, l: nat, i: nat,
                                    code: seq<byte>)
    requires |last| == |line| && DividedTo(line, last, top, pieces, l, i, code) && i - l >= 127
    ensures DividedTo(line, last, top, WithLiteral(pieces, i - l), i, i, code + DataCode(line, l, i - l))
  {
    LiteralPut(line, last, top, pieces, l, i, code);
  }

  /** Another piece, after the bytes left over. */
  lemma {:induction false} PiecePut(line: seq<byte>, last: seq<byte>, top: bool, pieces: seq<Piece>, l: nat, i: nat,
                                    code: seq<byte>, piece: Piece)
    requires |last| == |line| && DividedTo(line, last, top, pieces, l, i, code)
    requires RightPiece(line, last, top, i, piece) && !piece.Literal?
    ensures DividedTo(line, last, top, WithLiteral(pieces, i - l) + [piece], i + piece.n, i + piece.n,
                      code + DataCode(line, l, i - l) + PieceCode(line, i, piece))
  {
    LiteralPut(line, last, top, pieces, l, i, code);
    PiecesSnoc(line, last, top, WithLiteral(pieces, i - l), piece);
  }

  /** An output file of PostScript images. */
  class PsFile {
    var text: string
    var nhexout: nat
    const last: array<byte>
    var pslines: nat

    constructor ()
      ensures text == [] && fresh(last) && last.Length == MAXBITS && pslines == 0
    {
      text, nhexout, pslines := [], 0, 0;
      last := new byte[MAXBITS](_ => 0);
    }

    method HexPutC(c: byte)
      requires Even(text)
      modifies this`text, this`nhexout
      ensures Even(text) && Unhex(text) == Unhex(old(text)) + [c]
      ensures text == old(text) + [HEXCHARS[c / 16]] + [HEXCHARS[c % 16]]
                      + if old(nhexout) % 32 == 31 then ['\n'] else []
      ensures nhexout == old(nhexout) + 1
    {
      HexAdded(text, c);
      text := text + [HEXCHARS[c / 16]] + [HEXCHARS[c % 16]];
      if nhexout % 32 == 31 {
        text := text + ['\n'];
      }
      nhexout := nhexout + 1;
    }

    /** A count and that many bytes, complemented. */
    method HexPutS(data: seq<byte>)
      requires Even(text) && |data| <= 255
      modifies this`text, this`nhexout
      ensures Even(text)
      ensures Unhex(text) == Unhex(old(text)) + if data == [] then [] else [|data| as byte] + Invert(data)
    {
      if |data| > 0 {
        HexPutC(|data|);
        ghost var head := Unhex(text);
        for i := 0 to |data|
          invariant Even(text) && Unhex(text) == head + Invert(data)[..i]
        {
          HexPutC(Complement(data[i]));
          assert Invert(data)[..i + 1] == Invert(data)[..i] + [Complement(data[i])];
        }
        assert Invert(data)[..|data|] == Invert(data);
      }
    }

    /** The end of a copy from position i on, at most `most` bytes long. */
    method CopyEnd(line: seq<byte>, i: nat, most: nat) returns (j: nat)
      requires |line| <= last.Length && i <= |line|
      ensures i <= j <= |line| && j - i <= most
      ensures pslines == 0 ==> j == i
      ensures SameBetween(line, last[..|line|], i, j)
      ensures j < |line| && j - i < most && pslines > 0 ==> line[j] != last[j]
    {
      j := i;
      while j < |line| && line[j] == last[j] && j - i < most && pslines > 0
        invariant i <= j <= |line| && j - i <= most && (pslines == 0 ==> j == i)
        invariant forall k | i <= k < j :: line[k] == last[k]
      {
        j := j + 1;
      }
    }

    /** Write the data from l to i. */
    method PutData(line: seq<byte>, l: nat, i: nat, ghost code: seq<byte>, ghost before: seq<byte>)
      returns (ghost code': seq<byte>)
      requires l <= i <= |line| && i - l <= 127
      requires Even(text) && Same(Unhex(text), before + code)
      modifies this`text, this`nhexout
      ensures Even(text) && Same(Unhex(text), before + code')
      ensures code' == code + DataCode(line, l, i - l)
    {
      HexPutS(line[l..i]);
      InvertSlice(line, l, i);
      SeqAssoc(before, code, DataCode(line, l, i - l));
      code' := code + DataCode(line, l, i - l);
    }

    /** Write the data from l to i and then a copy of k bytes. */
    method PutSkip(line: seq<byte>, l: nat, i: nat, k: nat, ghost code: seq<byte>, ghost before: seq<byte>)
      returns (ghost code': seq<byte>)
      requires l <= i <= |line| && i - l <= 127 && k <= 127
      requires Even(text) && Same(Unhex(text), before + code)
      modifies this`text, this`nhexout
      ensures Even(text) && Same(Unhex(text), before + code')
      ensures code' == code + DataCode(line, l, i - l) + [k + 127]
    {
      code' := PutData(line, l, i, code, before);
      HexPutC(k + 127);
      SeqAssoc(before, code', [k + 127]);
      code' := code' + [k + 127];
    }

    /** Write the data from l to i and then a run of k bytes. */
    method PutRun(line: seq<byte>, l: nat, i: nat, k: nat, ghost code: seq<byte>, ghost before: seq<byte>)
      returns (ghost code': seq<byte>)
      requires l <= i < |line| && i - l <= 127 && k <= 255
      requires Even(text) && Same(Unhex(text), before + code)
      modifies this`text, this`nhexout
      ensures Even(text) && Same(Unhex(text), before + code')
      ensures code' == code + DataCode(line, l, i - l) + [255, k, Complement(line[i])]
    {
      code' := PutData(line, l, i, code, before);
      HexPutC(255);
      HexPutC(k);
      HexPutC(Complement(line[i]));
      ThreeMore(before, code', 255, k, Complement(line[i]));
      code' := code' + [255, k, Complement(line[i])];
    }

    /** The state of coding a line: what is coded, and the data from l to i that are not. */
    ghost predicate Coding(line: seq<byte>, l: nat, i: nat, code: seq<byte>, before: seq<byte>)
      reads this, last
    {
      && |line| <= last.Length && l <= i <= |line| && i - l <= 127
      && Even(text) && Same(Unhex(text), before + code)
      && CodedTo(code, line, last[..|line|], pslines == 0, l, 0)
    }

    lemma {:induction false} CodingStarts(line: seq<byte>)
      requires |line| <= last.Length && Even(text)
      ensures Coding(line, 0, 0, [], Unhex(text))
    {
      NothingCoded(line, last[..|line|], pslines == 0);
      NothingMore(Unhex(text));
    }

    /** The data left over are the last part of the line's code. */
    method PutRest(line: seq<byte>, l: nat, ghost code: seq<byte>, ghost before: seq<byte>)
      returns (ghost code': seq<byte>)
      requires Coding(line, l, |line|, code, before)
      modifies this`text, this`nhexout
      ensures Even(text) && Same(Unhex(text), before + code')
      ensures CodesLine(code', line, last[..|line|], pslines == 0)
      ensures code' == code + DataCode(line, l, |line| - l)
    {
      ghost var was := last[..|line|];
      code' := PutData(line, l, |line|, code, before);
      assert last[..|line|] == was;
      LastData(code, line, was, pslines == 0, l);
    }

    /** A copy or a run from i to j, and the data from l to i before it. */
    method CodeCopy(line: seq<byte>, l: nat, i: nat, j: nat, ghost code: seq<byte>, ghost before: seq<byte>)
      returns (ghost code': seq<byte>)
      requires Coding(line, l, i, code, before) && i < j <= |line| && 2 < j - i <= 127
      requires pslines > 0 && SameBetween(line, last[..|line|], i, j)
      modifies this`text, this`nhexout
      ensures Coding(line, j, j, code', before) && code' == code + DataCode(line, l, i - l) + [j - i + 127]
    {
      DataTo(code, line, last[..|line|], pslines == 0, l, i);
      SkipTo(code + DataCode(line, l, i - l), line, last[..|line|], pslines == 0, i, j);
      code' := PutSkip(line, l, i, j - i, code, before);
    }

    method CodeRun(line: seq<byte>, l: nat, i: nat, j: nat, ghost code: seq<byte>, ghost before: seq<byte>)
      returns (ghost code': seq<byte>)
      requires Coding(line, l, i, code, before) && i < j <= |line| && 4 < j - i <= 255 && AllEqual(line, i, j)
      modifies this`text, this`nhexout
      ensures Coding(line, j, j, code', before)
      ensures code' == code + DataCode(line, l, i - l) + [255, j - i, Complement(line[i])]
    {
      DataTo(code, line, last[..|line|], pslines == 0, l, i);
      RunTo(code + DataCode(line, l, i - l), line, last[..|line|], pslines == 0, i, j);
      code' := PutRun(line, l, i, j - i, code, before);
    }

    /** The data from l to i when there are 127 of them. */
    method CodeChunk(line: seq<byte>, l: nat, i: nat, ghost code: seq<byte>, ghost before: seq<byte>)
      returns (ghost code': seq<byte>)
      requires Coding(line, l, i, code, before) && i - l >= 127
      modifies this`text, this`nhexout
      ensures Coding(line, i, i, code', before) && code' == code + DataCode(line, l, i - l)
    {
      ChunkTo(code, line, last[..|line|], pslines == 0, l);
      code' := PutData(line, l, i, code, before);
    }

    /** Another byte that is not yet coded. */
    lemma {:induction false} CodingNext(line: seq<byte>, l: nat, i: nat, code: seq<byte>, before: seq<byte>)
      requires Coding(line, l, i, code, before) && i < |line| && i - l < 127
      ensures Coding(line, l, i + 1, code, before)
    {
    }

    /** What one step of compression does at position i: the data from l on that are not yet
        coded go out before a copy or a run, or when there are 127 of them. */
    method Step(line: seq<byte>, l: nat, i: nat, ghost code: seq<byte>, ghost before: seq<byte>,
                ghost pieces: seq<Piece>)
      returns (l': nat, i': nat, ghost code': seq<byte>, ghost pieces': seq<Piece>)
      requires |line| <= last.Length && l <= i < |line| && Coding(line, l, i, code, before)
      requires DividedTo(line, last[..|line|], pslines == 0, pieces, l, i, code)
      modifies this`text, this`nhexout
      ensures l' <= i' <= |line| && Coding(line, l', i', code', before)
      ensures DividedTo(line, last[..|line|], pslines == 0, pieces', l', i', code')
      ensures i' > i || (i' == i && l' == i && l < i)
    {
      hide Coding, Plain, AllPlain, Divided, DividedTo, RightPiece, CodedTo;
      ghost var was, top := last[..|line|], pslines == 0;
      l', i', code', pieces' := l, i, code, pieces;
      var j := CopyEnd(line, i, 127);
      if j - i > 2 {
        CopyPut(line, was, top, pieces, l, i, code, j);
        code' := CodeCopy(line, l, i, j, code, before);
        l', i' := j, j;
        pieces' := WithLiteral(pieces, i - l) + [Copy(j - i)];
      } else {
        NoCopy(line, was, top, i, j);
        j := RunEnd(line, i);
        if j - i > 4 {
          EqualPut(line, was, top, pieces, l, i, code, j);
          code' := CodeRun(line, l, i, j, code, before);
          l', i' := j, j;
          pieces' := WithLiteral(pieces, i - l) + [Equal(j - i)];
        } else if i - l >= 127 {
          ChunkPut(line, was, top, pieces, l, i, code);
          code' := CodeChunk(line, l, i, code, before);
          l' := i;
          pieces' := WithLiteral(pieces, i - l);
        } else {
          NoRun(line, was, top, i, j);
          PlainNext(line, was, top, pieces, l, i, code);
          CodingNext(line, l, i, code, before);
          i' := i + 1;
        }
      }
    }

    lemma {:induction false} NothingDivided(line: seq<byte>)
      requires |line| <= last.Length
      ensures DividedTo(line, last[..|line|], pslines == 0, [], 0, 0, [])
    {
    }

    /** Go through a line, coding all but the bytes left over at its end. */
    method PutPieces(line: seq<byte>)
      returns (l: nat, ghost code: seq<byte>, ghost pieces: seq<Piece>, ghost before: seq<byte>)
      requires Even(text) && |line| <= last.Length
      modifies this`text, this`nhexout
      ensures before == Unhex(old(text)) && Coding(line, l, |line|, code, before)
      ensures DividedTo(line, last[..|line|], pslines == 0, pieces, l, |line|, code)
    {
      hide Coding, DividedTo;
      before := Unhex(text);
      l, code, pieces := 0, [], [];
      var i: nat := 0;
      CodingStarts(line);
      NothingDivided(line);
      while i < |line|
        invariant l <= i <= |line| && Coding(line, l, i, code, before)
        invariant DividedTo(line, last[..|line|], pslines == 0, pieces, l, i, code)
        decreases |line| - i, i - l
      {
        l, i, code, pieces := Step(line, l, i, code, before, pieces);
      }
    }

    /** Code a line that is not a repetition of the one before. */
    method PutLine(line: seq<byte>) returns (ghost code: seq<byte>, ghost pieces: seq<Piece>)
      requires Even(text) && |line| <= last.Length
      modifies this`text, this`nhexout
      ensures Even(text) && Unhex(text) == Unhex(old(text)) + code
      ensures CodesLine(code, line, last[..|line|], pslines == 0)
      ensures Divided(line, last[..|line|], pslines == 0, pieces) && Length(pieces) == |line|
      ensures code == PiecesCode(line, pieces)
    {
      hide Divided, DividedTo, PiecesCode, AllPlain, CodedTo, CodesLine, DataCode, Even, Unhex;
      var l;
      ghost var before;
      l, code, pieces, before := PutPieces(line);
      LiteralPut(line, last[..|line|], pslines == 0, pieces, l, |line|, code);
      pieces := WithLiteral(pieces, |line| - l);
      code := PutRest(line, l, code, before);
    }

    /** Code a line after the one written last: a line that repeats it in one byte, and any other
        in the pieces that the rules ask for. */
    method PsWrite(line: seq<byte>) returns (ghost code: seq<byte>, ghost pieces: seq<Piece>)
      requires Even(text) && |line| <= last.Length
      modifies this, last
      ensures Even(text) && Unhex(text) == Unhex(old(text)) + code
      ensures line != [] ==> CodesLine(code, line, old(last[..|line|]), old(pslines) == 0)
      ensures line == [] || (old(pslines) > 0 && line == old(last[..|line|])) ==> code == [0]
      ensures line != [] && (old(pslines) == 0 || line != old(last[..|line|])) ==>
                && Divided(line, old(last[..|line|]), old(pslines) == 0, pieces) && Length(pieces) == |line|
                && code == PiecesCode(line, pieces)
      ensures last[..|line|] == line && pslines == old(pslines) + 1
    {
      pieces := [];
      var j := CopyEnd(line, 0, |line|);
      if j == |line| {
        if line != [] {
          assert line == last[..|line|];
          RepeatLine(line);
        }
        HexPutC(0);
        code := [0];
      } else {
        code, pieces := PutLine(line);
      }
      Remember(line);
      pslines := pslines + 1;
    }

    method Remember(line: seq<byte>)
      requires |line| <= last.Length
      modifies last
      ensures last[..|line|] == line
    {
      for k := 0 to |line|
        invariant last[..k] == line[..k]
      {
        last[k] := line[k];
      }
    }
  }

  lemma {:induction false} NoCopy(line: seq<byte>, last: seq<byte>, top: bool, i: nat, j: nat)
    requires |last| == |line| && i <= j <= |line| && j - i <= 2 && (top ==> j == i)
    requires j < |line| && !top ==> line[j] != last[j]
    ensures top || i + 3 > |line| || !SameBetween(line, last, i, i + 3)
  {
  }

  lemma {:induction false} NoRun(line: seq<byte>, last: seq<byte>, top: bool, i: nat, j: nat)
    requires |last| == |line| && i < j <= |line| && j - i <= 4 && (j < |line| ==> line[j] != line[i])
    requires top || i + 3 > |line| || !SameBetween(line, last, i, i + 3)
    ensures Plain(line, last, top, i)
  {
  }

  lemma {:induction false} CopyPut(line: seq<byte>, last: seq<byte>, top: bool, pieces: seq<Piece>, l: nat, i: nat,
                                   code: seq<byte>, j: nat)
    requires |last| == |line| && DividedTo(line, last, top, pieces, l, i, code)
    requires i < j <= |line| && 2 < j - i <= 127 && !top && SameBetween(line, last, i, j)
    requires j == |line| || j - i == 127 || line[j] != last[j]
    ensures DividedTo(line, last, top, WithLiteral(pieces, i - l) + [Copy(j - i)], j, j,
                      code + DataCode(line, l, i - l) + [j - i + 127])
  {
    PiecePut(line, last, top, pieces, l, i, code, Copy(j - i));
  }

  lemma {:induction false} EqualPut(line: seq<byte>, last: seq<byte>, top: bool, pieces: seq<Piece>, l: nat, i: nat,
                                    code: seq<byte>, j: nat)
    requires |last| == |line| && DividedTo(line, last, top, pieces, l, i, code)
    requires i < j <= |line| && 4 < j - i <= 255 && AllEqual(line, i, j)
    requires j == |line| || j - i == 255 || line[j] != line[i]
    requires top || i + 3 > |line| || !SameBetween(line, last, i, i + 3)
    ensures DividedTo(line, last, top, WithLiteral(pieces, i - l) + [Equal(j - i)], j, j,
                      code + DataCode(line, l, i - l) + [255, j - i, Complement(line[i])])
  {
    PiecePut(line, last, top, pieces, l, i, code, Equal(j - i));
  }

  /** The end of a run of equal bytes from position i on, at most 255 long. */
  method RunEnd(line: seq<byte>, i: nat) returns (j: nat)
    requires i < |line|
    ensures i < j <= |line| && j - i <= 255
    ensures AllEqual(line, i, j) && (j == |line| || j - i == 255 || line[j] != line[i])
  {
    j := i;
    while j < |line| && line[j] == line[i] && j - i < 255
      invariant i <= j <= |line| && j - i <= 255
      invariant forall k | i <= k < j :: line[k] == line[i]
    {
      j := j + 1;
    }
  }

  lemma {:induction false} InvertSlice(line: seq<byte>, l: nat, i: nat)
    requires l <= i <= |line|
    ensures Invert(line[l..i]) == Invert(line)[l..i]
  {
  }

  lemma {:induction false} ThreeMore(before: seq<byte>, code: seq<byte>, a: byte, b: byte, c: byte)
    ensures before + code + [a] + [b] + [c] == before + (code + [a, b, c])
  {
  }

  lemma {:induction false} NothingMore(s: seq<byte>)
    ensures Same(s, s + [])
  {
    assert s + [] == s;
  }

  // Pages.

  /** The lines shown so far, the line buffer, and the input left. */
  datatype Shown = Shown(lines: seq<seq<byte>>, buf: seq<byte>, rest: seq<byte>)

  /** The image operator calls readbuf once for each line. */
  function ShowLines(coded: seq<byte>, buf: seq<byte>, count: nat): Option<Shown>
    decreases count
  {
    if count == 0 then Some(Shown([], buf, coded))
    else
      match ShowLines(coded, buf, count - 1)
      case None => None
      case Some(s) =>
        match Play(s.rest, s.buf, 0)
        case None => None
        case Some(p) => Some(Shown(s.lines + [p.buf], p.buf, p.rest))
  }

  function InvertAll(lines: seq<seq<byte>>): (r: seq<seq<byte>>)
    ensures |r| == |lines|
  {
    seq(|lines|, i requires 0 <= i < |lines| => Invert(lines[i]))
  }

  /** The code shows the given lines, whatever the buffer holds before and whatever follows. */
  ghost predicate ShowsPage(code: seq<byte>, lines: seq<seq<byte>>, n: nat)
  {
    forall buf: seq<byte>, rest: seq<byte> :: |buf| == n ==> ShowsFrom(code, lines, buf, rest)
  }

  ghost predicate ShowsFrom(code: seq<byte>, lines: seq<seq<byte>>, buf: seq<byte>, rest: seq<byte>)
  {
    var now := if lines == [] then buf else Invert(lines[|lines| - 1]);
    ShowLines(code + rest, buf, |lines|) == Some(Shown(InvertAll(lines), now, rest))
  }

  lemma {:induction false} ShowsNothing(n: nat)
    ensures ShowsPage([], [], n)
  {
    forall buf: seq<byte>, rest: seq<byte> | |buf| == n ensures ShowsFrom([], [], buf, rest) {
      assert [] + rest == rest;
    }
  }

  lemma {:induction false} ShowsLine(code: seq<byte>, lines: seq<seq<byte>>, n: nat, line: seq<byte>, last: seq<byte>,
                                     more: seq<byte>)
    requires ShowsPage(code, lines, n) && |line| == |last| == n
    requires lines == [] || lines[|lines| - 1] == last
    requires CodesLine(more, line, last, lines == [])
    ensures ShowsPage(code + more, lines + [line], n)
  {
    forall buf: seq<byte>, rest: seq<byte> | |buf| == n ensures ShowsFrom(code + more, lines + [line], buf, rest) {
      assert ShowsFrom(code, lines, buf, more + rest);
      SeqAssoc(code, more, rest);
      var now := if lines == [] then buf else Invert(last);
      assert Before(now, line, last, lines == []);
      assert DecodesLine(more, line, now);
      assert DecodesOn(more, line, now, rest);
      assert InvertAll(lines + [line]) == InvertAll(lines) + [Invert(line)];
    }
  }

  /** Nothing is read for empty lines. */
  lemma {:induction false} NoneRead(coded: seq<byte>, count: nat)
    ensures ShowLines(coded, [], count).Some?
    ensures ShowLines(coded, [], count).value.rest == coded && ShowLines(coded, [], count).value.buf == []
  {
    if count > 0 { NoneRead(coded, count - 1); }
  }

  /** Code for empty lines is left unread. */
  lemma {:induction false} EmptyPage(code: seq<byte>, lines: seq<seq<byte>>)
    requires code != []
    ensures !ShowsPage(code, lines, 0)
  {
    NoneRead(code + [], |lines|);
    assert |code + []| > 0;
    assert !ShowsFrom(code, lines, [], []);
  }

  /** The code written so far. */
  ghost predicate Showing(code: seq<byte>, lines: seq<seq<byte>>, n: nat)
  {
    if n > 0 then ShowsPage(code, lines, n) else code != [] || lines == []
  }

  /** Write the lines of a page. The decoder shows exactly these, complemented, and has read
      exactly their code, unless they are empty: then it reads nothing of what is written. */
  method WritePage(f: PsFile, lines: seq<seq<byte>>, n: nat) returns (ghost code: seq<byte>)
    requires Even(f.text) && n <= MAXBITS == f.last.Length
    requires forall i | 0 <= i < |lines| :: |lines[i]| == n
    modifies f, f.last
    ensures Even(f.text) && Unhex(f.text) == Unhex(old(f.text)) + code
    ensures ShowsPage(code, lines, n) <==> n > 0 || lines == []
  {
    ghost var before := Unhex(f.text);
    code := [];
    f.pslines := 0;
    NothingMore(before);
    ShowsNothing(n);
    for k := 0 to |lines|
      invariant Even(f.text) && Same(Unhex(f.text), before + code)
      invariant f.pslines == k && (k > 0 ==> f.last[..n] == lines[k - 1])
      invariant Showing(code, lines[..k], n) && (k == 0 ==> code == [])
    {
      ghost var last := f.last[..n];
      ghost var more, _ := f.PsWrite(lines[k]);
      SeqAssoc(before, code, more);
      if n > 0 { ShowsLine(code, lines[..k], n, lines[k], last, more); }
      assert lines[..k + 1] == lines[..k] + [lines[k]];
      code := code + more;
    }
    assert lines[..|lines|] == lines;
    if n == 0 && lines != [] { EmptyPage(code, lines); }
  }

  /** The interpreter of the prolog, reading coded bytes into a line buffer. */
  class Interpreter {
    var inp: seq<byte>
    const buf: array<byte>

    constructor (coded: seq<byte>, n: nat)
      ensures inp == coded && fresh(buf) && buf.Length == n
    {
      inp := coded;
      buf := new byte[n](_ => 0);
    }

    /** Put data into the buffer at position index. */
    method Fill(data: seq<byte>, index: nat)
      requires index + |data| <= buf.Length
      modifies buf
      ensures buf[..] == Patch(old(buf[..]), index, data)
    {
      for k := 0 to |data|
        invariant buf[..] == Patch(old(buf[..]), index, data[..k])
      {
        buf[index + k] := data[k];
        assert data[..k + 1] == data[..k] + [data[k]];
      }
      assert data[..|data|] == data;
    }

    /** Read one line, if the input is well formed. */
    method ReadBuf() returns (ok: bool)
      modifies this, buf
      ensures var r := Play(old(inp), old(buf[..]), 0);
        ok == r.Some? && (ok ==> buf[..] == r.value.buf && inp == r.value.rest)
    {
      var index := 0;
      ok := true;
      while index < buf.Length
        invariant ok && index >= 0
        invariant Play(inp, buf[..], index) == Play(old(inp), old(buf[..]), 0)
        decreases |inp|
      {
        if inp == [] { return false; }
        var v := inp[0];
        if v == 0 {
          index, inp := index + buf.Length, inp[1..];
        } else if v <= 127 {
          if |inp| < 1 + v || index + v > buf.Length { return false; }
          Fill(inp[1..1 + v], index);
          index, inp := index + v, inp[1 + v..];
        } else if v == 255 {
          if |inp| < 3 || index + inp[1] > buf.Length { return false; }
          Fill(Copies(inp[2], inp[1]), index);
          index, inp := index + inp[1], inp[3..];
        } else {
          index, inp := index + (v - 127), inp[1..];
        }
      }
    }
  }
}
