/** Encryption of a scan line: each run is combined by exclusive or with the low byte of
    a keystream word. */
module LineCipher {
  import Bits
  import opened Keystream
  import opened WordArithmetic

  /** runs[i] ^ (unsigned char) s[i] on a 16-bit run: only the low byte changes. */
  function XorRun(r: int, k: word): int
  {
    r - r % 256 + Xor(r % 256, LowByte(k), 8)
  }

  function LowByte(k: word): Bits.byte
  {
    k % 256
  }

  lemma {:induction false} XorRunTwice(r: int, k: word)
    ensures XorRun(XorRun(r, k), k) == r
    ensures XorRun(r, k) / 256 == r / 256
  {
    var a, b := r % 256, LowByte(k);
    assert Bits.Pow2(8) == 256;
    XorRange(a, b, 8);
    XorTwice(a, b, 8);
    Bits.DivUnique(XorRun(r, k), 256, r / 256, Xor(a, b, 8));
  }

  /** A scan line under the keystream of a key. */
  function Cipher(key: Key, runs: seq<int>): (r: seq<int>)
    ensures |r| == |runs|
  {
    seq(|runs|, i requires 0 <= i < |runs| => XorRun(runs[i], Stream(key, i)))
  }

  /** Bit i is among the low n bits. */
  lemma {:induction false} LowBit(v: nat, n: nat, i: nat)
    requires i < n
    ensures Bit(v % Bits.Pow2(n), i) <==> Bit(v, i)
    decreases n
  {
    Bits.HalfMod(v, n);
    if i > 0 { LowBit(v / 2, n - 1, i - 1); }
  }

  /** Run i has the low eight bits of keystream word i put on it, and keeps its others. */
  lemma {:induction false} CipherBits(key: Key, runs: seq<int>, i: nat, b: nat)
    requires i < |runs|
    ensures Cipher(key, runs)[i] / 256 == runs[i] / 256
    ensures b < 8 ==> (Bit(Cipher(key, runs)[i] % 256, b) <==> Bit(runs[i] % 256, b) != Bit(Stream(key, i), b))
  {
    var r, k := runs[i], Stream(key, i);
    assert Bits.Pow2(8) == 256;
    XorRunTwice(r, k);
    XorRange(r % 256, LowByte(k), 8);
    Bits.DivUnique(XorRun(r, k), 256, r / 256, Xor(r % 256, LowByte(k), 8));
    XorBit(r % 256, LowByte(k), 8, b);
    if b < 8 { LowBit(k, 8, b); }
  }

  /** Deciphering restores the line. */
  lemma {:induction false} CipherTwice(key: Key, runs: seq<int>)
    ensures Cipher(key, Cipher(key, runs)) == runs
  {
    forall i | 0 <= i < |runs| ensures Cipher(key, Cipher(key, runs))[i] == runs[i] {
      XorRunTwice(runs[i], Stream(key, i));
    }
  }

  /** Runs on lines of up to 2432 pixels stay codable. */
  lemma {:induction false} CipherRange(key: Key, runs: seq<int>)
    requires forall i | 0 <= i < |runs| :: 0 <= runs[i] <= 2432
    ensures forall i | 0 <= i < |runs| :: 0 <= Cipher(key, runs)[i] <= 2559
  {
    forall i | 0 <= i < |runs| ensures 0 <= Cipher(key, runs)[i] <= 2559 {
      XorRunRange(runs[i], Stream(key, i));
    }
  }

  lemma {:induction false} XorRunRange(r: int, k: word)
    requires 0 <= r <= 2432
    ensures 0 <= XorRun(r, k) <= 2559
  {
    XorRunTwice(r, k);
    SameBlock(r, XorRun(r, k));
  }

  lemma {:induction false} SameBlock(r: int, q: int)
    requires q / 256 == r / 256 && 0 <= r <= 2432
    ensures 0 <= q <= 2559
  {
  }

  /** The 16 key characters taken from a pass phrase, repeated as often as needed. */
  function KeyOf(pass: seq<int>): Key
    requires pass != [] && forall i | 0 <= i < |pass| :: -128 <= pass[i] < 128
  {
    seq(16, i requires 0 <= i < 16 => pass[i % |pass|])
  }

  /** The key begins with the pass phrase, and each later character is the one a pass phrase
      before it. */
  lemma {:induction false} KeyRepeats(pass: seq<int>, i: nat)
    requires pass != [] && (forall k | 0 <= k < |pass| :: -128 <= pass[k] < 128) && i < 16
    ensures KeyOf(pass)[i] == if i < |pass| then pass[i] else KeyOf(pass)[i - |pass|]
  {
    var n := |pass|;
    if i >= n { Bits.DivUnique(i - n, n, i / n - 1, i % n); }
  }

  method TakeKey(pass: seq<int>) returns (key: Key)
    requires pass != [] && forall i | 0 <= i < |pass| :: -128 <= pass[i] < 128
    ensures key == KeyOf(pass)
  {
    var k := new int[16](_ => 0);
    for i := 0 to 16
      invariant forall j | 0 <= j < i :: k[j] == pass[j % |pass|]
    {
      k[i] := pass[i % |pass|];
    }
    assert k[..] == KeyOf(pass);
    key := k[..];
  }

  /** Combine the first nr runs with keystream words. */
  method XorRuns(runs: array<int>, nr: nat, words: seq<word>)
    requires nr <= runs.Length && nr <= |words|
    modifies runs
    ensures forall k | 0 <= k < nr :: runs[k] == XorRun(old(runs[k]), words[k])
    ensures forall k | nr <= k < runs.Length :: runs[k] == old(runs[k])
  {
    for i := 0 to nr
      invariant forall k | 0 <= k < i :: runs[k] == XorRun(old(runs[k]), words[k])
      invariant forall k | i <= k < runs.Length :: runs[k] == old(runs[k])
    {
      runs[i] := XorRun(runs[i], words[i]);
    }
  }

  /** The generator's tables are not the run buffer. */
  ghost predicate Separate(g: Generator, runs: array<int>)
  {
    var r: object := runs;
    r != g.P && r != g.Q && r != g.K && r != g.IV && r != g.W
  }

  /** Encrypt or decrypt a line in the run buffer. */
  method XorLine(g: Generator, pass: seq<int>, runs: array<int>, nr: nat)
    requires g.Valid() && Separate(g, runs) && nr <= runs.Length
    requires pass != [] && forall i | 0 <= i < |pass| :: -128 <= pass[i] < 128
    modifies g.P, g.Q, g.K, g.IV, g.W, runs
    ensures runs[..nr] == Cipher(KeyOf(pass), old(runs[..nr]))
  {
    var s := new word[nr];
    var key := TakeKey(pass);
    g.Encrypt(key, nr, s);
    forall k | 0 <= k < nr ensures s[..nr][k] == Stream(key, k) {
      WordAt(key, nr, k);
    }
    XorRuns(runs, nr, s[..nr]);
  }
}
