/** The byte stream between the fax program and the modem: bit order, DLE stuffing,
    chunked writes, and reading data characters back. */
module Transport {
  import opened Bits

  const DLE: byte := 0x10
  const ETX: byte := 0x03
  const SUB: byte := 0x1A
  const END_OF_DATA := -2
  const NO_INPUT := -1
  const MINWRITE := 64

  /** A table that maps bytes to bytes. */
  type BitOrder = s: seq<byte> | |s| == 256 witness seq(256, _ => 0)

  // Bit order.

  /** The eight bits of a byte in reverse order. */
  function ReverseByte(i: byte): byte
  {
    i % 2 * 128 + i / 2 % 2 * 64 + i / 4 % 2 * 32 + i / 8 % 2 * 16 +
    i / 16 % 2 * 8 + i / 32 % 2 * 4 + i / 64 % 2 * 2 + i / 128
  }

  /** The binary digits of a byte, least significant first, determine it and are determined by it. */
  lemma {:induction false} Digits(i: byte, a: nat, b: nat, c: nat, d: nat, e: nat, f: nat, g: nat, h: nat)
    requires a < 2 && b < 2 && c < 2 && d < 2 && e < 2 && f < 2 && g < 2 && h < 2
    requires i == a + 2 * (b + 2 * (c + 2 * (d + 2 * (e + 2 * (f + 2 * (g + 2 * h))))))
    ensures i % 2 == a && i / 2 % 2 == b && i / 4 % 2 == c && i / 8 % 2 == d
    ensures i / 16 % 2 == e && i / 32 % 2 == f && i / 64 % 2 == g && i / 128 == h
  {
    assert i / 2 == b + 2 * (c + 2 * (d + 2 * (e + 2 * (f + 2 * (g + 2 * h)))));
    assert i / 4 == c + 2 * (d + 2 * (e + 2 * (f + 2 * (g + 2 * h))));
    assert i / 8 == d + 2 * (e + 2 * (f + 2 * (g + 2 * h)));
    assert i / 16 == e + 2 * (f + 2 * (g + 2 * h));
    assert i / 32 == f + 2 * (g + 2 * h);
    assert i / 64 == g + 2 * h;
    assert i / 128 == h;
  }

  lemma {:induction false} ReverseDigits(i: byte, a: nat, b: nat, c: nat, d: nat, e: nat, f: nat, g: nat, h: nat)
    requires a < 2 && b < 2 && c < 2 && d < 2 && e < 2 && f < 2 && g < 2 && h < 2
    requires i == a + 2 * (b + 2 * (c + 2 * (d + 2 * (e + 2 * (f + 2 * (g + 2 * h))))))
    ensures ReverseByte(i) == h + 2 * (g + 2 * (f + 2 * (e + 2 * (d + 2 * (c + 2 * (b + 2 * a))))))
  {
    Digits(i, a, b, c, d, e, f, g, h);
  }

  lemma {:induction false} HalveTwice(i: nat, k: nat)
    requires k > 0
    ensures i / (2 * k) == i / k / 2
    ensures i / k == 2 * (i / (2 * k)) + i / k % 2
  {
    DivDiv(i, k, 2);
  }

  lemma {:induction false} ReverseTwice(i: byte)
    ensures ReverseByte(ReverseByte(i)) == i
  {
    var a, b, c, d := i % 2, i / 2 % 2, i / 4 % 2, i / 8 % 2;
    var e, f, g, h := i / 16 % 2, i / 32 % 2, i / 64 % 2, i / 128;
    HalveTwice(i, 1); HalveTwice(i, 2); HalveTwice(i, 4); HalveTwice(i, 8);
    HalveTwice(i, 16); HalveTwice(i, 32); HalveTwice(i, 64);
    ReverseDigits(i, a, b, c, d, e, f, g, h);
    ReverseDigits(ReverseByte(i), h, g, f, e, d, c, b, a);
  }

  /** The reversed byte has the same binary digits the other way round. */
  lemma {:induction false} ReversedDigits(i: byte)
    ensures var r := ReverseByte(i);
      && r % 2 == i / 128 && r / 2 % 2 == i / 64 % 2 && r / 4 % 2 == i / 32 % 2 && r / 8 % 2 == i / 16 % 2
      && r / 16 % 2 == i / 8 % 2 && r / 32 % 2 == i / 4 % 2 && r / 64 % 2 == i / 2 % 2 && r / 128 == i % 2
  {
    var a, b, c, d := i % 2, i / 2 % 2, i / 4 % 2, i / 8 % 2;
    var e, f, g, h := i / 16 % 2, i / 32 % 2, i / 64 % 2, i / 128;
    HalveTwice(i, 1); HalveTwice(i, 2); HalveTwice(i, 4); HalveTwice(i, 8);
    HalveTwice(i, 16); HalveTwice(i, 32); HalveTwice(i, 64);
    ReverseDigits(i, a, b, c, d, e, f, g, h);
    Digits(ReverseByte(i), h, g, f, e, d, c, b, a);
  }

  /** The bit order tables that initbittab fills: one reverses bytes, the other keeps them. */
  method InitBitTables() returns (normal: array<byte>, reversed: array<byte>)
    ensures fresh(normal) && fresh(reversed)
    ensures normal[..] == NormalBits() && reversed[..] == ReverseBits()
  {
    normal := new byte[256];
    reversed := new byte[256];
    for i := 0 to 256
      invariant forall k | 0 <= k < i :: normal[k] == ReverseByte(k) && reversed[k] == k
    {
      reversed[i] := i;
      normal[i] := ReverseByte(i);
    }
  }

  function NormalBits(): BitOrder
  {
    seq(256, i requires 0 <= i < 256 => ReverseByte(i))
  }

  function ReverseBits(): BitOrder
  {
    seq(256, i requires 0 <= i < 256 => i)
  }

  // Sending.

  function StuffByte(order: BitOrder, b: byte): seq<byte>
  {
    if order[b] == DLE then [DLE, DLE] else [order[b]]
  }

  /** Bytes in the given bit order, with every DLE doubled. */
  function Stuff(order: BitOrder, data: seq<byte>): seq<byte>
  {
    if data == [] then [] else Stuff(order, data[..|data| - 1]) + StuffByte(order, data[|data| - 1])
  }

  lemma {:induction false} StuffConcat(order: BitOrder, a: seq<byte>, b: seq<byte>)
    ensures Stuff(order, a + b) == Stuff(order, a) + Stuff(order, b)
    decreases |b|
  {
    if b == [] {
      assert a + b == a;
    } else {
      var b', last := b[..|b| - 1], StuffByte(order, b[|b| - 1]);
      assert (a + b)[..|a + b| - 1] == a + b';
      StuffConcat(order, a, b');
      SeqAssoc(Stuff(order, a), Stuff(order, b'), last);
    }
  }

  lemma {:induction false} StuffSingle(order: BitOrder, b: byte)
    ensures Stuff(order, [b]) == StuffByte(order, b)
  {
    assert [b][..0] == [];
    assert Stuff(order, [b]) == [] + StuffByte(order, b);
  }

  // Receiving.

  /** The next data character: a byte, NO_INPUT when the input ends, END_OF_DATA at
      DLE-ETX. An escape that is not known, or cut short, reads as 0. */
  function DataChar(order: BitOrder, inp: seq<byte>): int
  {
    if inp == [] then NO_INPUT
    else if inp[0] != DLE then order[inp[0]]
    else if |inp| == 1 then 0
    else if inp[1] == ETX then END_OF_DATA
    else if inp[1] == DLE || inp[1] == SUB then order[DLE]
    else 0
  }

  /** What follows an escape: a doubled DLE and a substitute stand for one DLE, and an ETX for the
      end of the data; any other character, or none, reads as 0. */
  lemma {:induction false} Escaped(order: BitOrder, c: byte, rest: seq<byte>)
    ensures var inp := [DLE, c] + rest;
      && AfterChar(inp) == rest
      && DataChar(order, inp) == if c == ETX then END_OF_DATA else if c in {DLE, SUB} then order[DLE] else 0
    ensures DataChar(order, [DLE]) == 0 && AfterChar([DLE]) == []
  {
    var inp := [DLE, c] + rest;
    assert inp[0] == DLE && inp[1] == c && inp[2..] == rest;
  }

  /** The input left after a data character. */
  function AfterChar(inp: seq<byte>): seq<byte>
  {
    if inp == [] then []
    else if inp[0] != DLE || |inp| == 1 then inp[1..]
    else inp[2..]
  }

  /** The first n data characters of the input, and the input left after them. */
  function DataChars(order: BitOrder, inp: seq<byte>, n: nat): (cs: seq<int>)
    ensures |cs| == n
    decreases n
  {
    if n == 0 then [] else [DataChar(order, inp)] + DataChars(order, AfterChar(inp), n - 1)
  }

  function AfterChars(inp: seq<byte>, n: nat): seq<byte>
    decreases n
  {
    if n == 0 then inp else AfterChars(AfterChar(inp), n - 1)
  }

  /** The input left after the end of the data, or none if it does not end. */
  function AfterData(order: BitOrder, inp: seq<byte>): seq<byte>
    decreases |inp|
  {
    if DataChar(order, inp) < 0 then AfterChar(inp) else AfterData(order, AfterChar(inp))
  }

  /** Data sent with their end are read up to there. */
  lemma {:induction false} DataReadOn(out: BitOrder, order: BitOrder, data: seq<byte>, rest: seq<byte>)
    ensures AfterData(order, Stuff(out, data) + [DLE, ETX] + rest) == rest
  {
    if data == [] {
      assert Stuff(out, data) + [DLE, ETX] + rest == [DLE, ETX] + rest;
      assert ([DLE, ETX] + rest)[2..] == rest;
    } else {
      SeqAssoc(Stuff(out, data), [DLE, ETX], rest);
      SeqAssoc(Stuff(out, data[1..]), [DLE, ETX], rest);
      StuffFirst(out, order, data, [DLE, ETX] + rest);
      DataReadOn(out, order, data[1..], rest);
    }
  }

  /** The given bytes after one bit order on the way out and another on the way in. */
  function Through(out: BitOrder, order: BitOrder, data: seq<byte>): (cs: seq<int>)
    ensures |cs| == |data|
  {
    seq(|data|, i requires 0 <= i < |data| => order[out[data[i]]])
  }

  lemma {:induction false} ThroughFirst(out: BitOrder, order: BitOrder, data: seq<byte>)
    requires data != []
    ensures Through(out, order, data) == [order[out[data[0]]]] + Through(out, order, data[1..])
  {
  }

  /** Each sent byte comes back through both bit orders, and the DLE-ETX after them ends
      the data; nothing after it is touched. */
  lemma {:induction false} StuffRoundTrip(out: BitOrder, order: BitOrder, data: seq<byte>, rest: seq<byte>)
    ensures DataChars(order, Stuff(out, data) + [DLE, ETX] + rest, |data| + 1)
         == Through(out, order, data) + [END_OF_DATA]
    ensures AfterChars(Stuff(out, data) + [DLE, ETX] + rest, |data| + 1) == rest
  {
    var inp := Stuff(out, data) + [DLE, ETX] + rest;
    if data == [] {
      assert inp == [DLE, ETX] + rest;
      assert inp[2..] == rest;
    } else {
      var tail := data[1..];
      SeqAssoc(Stuff(out, data), [DLE, ETX], rest);
      SeqAssoc(Stuff(out, tail), [DLE, ETX], rest);
      StuffFirst(out, order, data, [DLE, ETX] + rest);
      StuffRoundTrip(out, order, tail, rest);
      ThroughFirst(out, order, data);
      SeqAssoc([order[out[data[0]]]], Through(out, order, tail), [END_OF_DATA]);
    }
  }

  /** The first character of stuffed data is its first byte. */
  lemma {:induction false} StuffFirst(out: BitOrder, order: BitOrder, data: seq<byte>, rest: seq<byte>)
    requires data != []
    ensures DataChar(order, Stuff(out, data) + rest) == order[out[data[0]]]
    ensures AfterChar(Stuff(out, data) + rest) == Stuff(out, data[1..]) + rest
  {
    var b, tail := data[0], data[1..];
    assert data == [b] + tail;
    StuffConcat(out, [b], tail);
    StuffSingle(out, b);
    SeqAssoc(StuffByte(out, b), Stuff(out, tail), rest);
    var inp := StuffByte(out, b) + (Stuff(out, tail) + rest);
    assert inp[|StuffByte(out, b)|..] == Stuff(out, tail) + rest;
  }

  /** The modem device: input still to come, and each write made to it. */
  class TFile {
    var inp: seq<byte>
    var writes: seq<seq<byte>>
    const ibitorder: BitOrder
    const obitorder: BitOrder

    constructor (input: seq<byte>, reverse: bool)
      ensures inp == input && writes == []
      ensures obitorder == NormalBits()
      ensures ibitorder == if reverse then ReverseBits() else NormalBits()
    {
      inp := input;
      writes := [];
      obitorder := NormalBits();
      ibitorder := if reverse then ReverseBits() else NormalBits();
    }

    method GetChar() returns (c: int)
      modifies this`inp
      ensures old(inp) == [] ==> c == NO_INPUT && inp == []
      ensures old(inp) != [] ==> c == old(inp[0]) && inp == old(inp)[1..]
    {
      if inp == [] {
        c := NO_INPUT;
      } else {
        c := inp[0];
        inp := inp[1..];
      }
    }

    method GetData() returns (c: int)
      modifies this`inp
      ensures c == DataChar(ibitorder, old(inp))
      ensures inp == AfterChar(old(inp))
    {
      c := GetChar();
      if c < 0 {
        c := NO_INPUT;
      } else if c != DLE {
        c := ibitorder[c];
      } else {
        c := GetChar();
        if c == ETX {
          c := END_OF_DATA;
        } else if c == DLE || c == SUB {
          c := ibitorder[DLE];
        } else {
          c := 0;
        }
      }
    }

    method Put(data: seq<byte>)
      modifies this`writes
      ensures writes == old(writes) + [data]
    {
      writes := writes + [data];
    }

    /** Send bytes, bit-reversed and with DLE doubled, in writes of 64 or 65 bytes, and what is left. */
    method SendBuf(data: seq<byte>)
      modifies this`writes
      ensures old(writes) <= writes
      ensures Flatten(writes) == Flatten(old(writes)) + Stuff(obitorder, data)
      ensures forall k | |old(writes)| <= k < |writes| :: 0 < |writes[k]| <= MINWRITE + 1
      ensures forall k | |old(writes)| <= k < |writes| - 1 :: |writes[k]| >= MINWRITE
    {
      var buf := new byte[MINWRITE + 1];
      var i := 0;
      for n := 0 to |data|
        invariant 0 <= i < MINWRITE
        invariant n == |data| ==> i == 0
        invariant old(writes) <= writes
        invariant Flatten(writes) + buf[..i] == Flatten(old(writes)) + Stuff(obitorder, data[..n])
        invariant forall k | |old(writes)| <= k < |writes| :: 0 < |writes[k]| <= MINWRITE + 1
        invariant forall k | |old(writes)| <= k < |writes| && (n < |data| || k < |writes| - 1) ::
                    |writes[k]| >= MINWRITE
      {
        var c := obitorder[data[n]];
        ghost var held := buf[..i];
        if c == DLE {
          buf[i] := DLE;
          i := i + 1;
        }
        buf[i] := c;
        i := i + 1;
        assert buf[..i] == held + StuffByte(obitorder, data[n]);
        assert data[..n + 1][..n] == data[..n];
        SeqAssoc(Flatten(writes), held, StuffByte(obitorder, data[n]));
        SeqAssoc(Flatten(old(writes)), Stuff(obitorder, data[..n]), StuffByte(obitorder, data[n]));
        if i >= MINWRITE || n + 1 == |data| {
          FlattenSnoc(writes, buf[..i]);
          Put(buf[..i]);
          i := 0;
        }
      }
      assert data[..|data|] == data;
      assert Flatten(writes) + buf[..i] == Flatten(writes);
    }
  }
}
