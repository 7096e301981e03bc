/** The keystream of a scan line: a word generator over two tables of 512 words, set up
    afresh from the key for every line. */
module Keystream {

  import Bits
  import opened WordArithmetic

  type Table = s: seq<word> | |s| == TABLE witness seq(TABLE, _ => 0)

  const TABLE := 512
  const EXPANDED := 1280

  type Key = k: seq<int> | |k| == 16 && forall i | 0 <= i < 16 :: -128 <= k[i] < 128
    witness seq(16, _ => 0)

  /** The two tables the generator updates in turn. */
  datatype State = State(p: Table, q: Table)

  function F1(x: word): word
  {
    XorWords(XorWords(RotateRight(x, 7), RotateRight(x, 18)), ShiftRight(x, 3))
  }

  function F2(x: word): word
  {
    XorWords(XorWords(RotateRight(x, 17), RotateRight(x, 19)), ShiftRight(x, 10))
  }

  function G1(x: word, y: word, z: word): word
  {
    Plus(XorWords(RotateRight(x, 10), RotateRight(z, 23)), RotateRight(y, 8))
  }

  function G2(x: word, y: word, z: word): word
  {
    Plus(XorWords(RotateLeft(x, 10), RotateLeft(z, 23)), RotateLeft(y, 8))
  }

  /** The sum of the entries that the first and third byte of x pick, one from each half. */
  function H(t: Table, x: word): word
  {
    Plus(t[x % 256], t[256 + ShiftRight(x, 16) % 256])
  }

  /** i - j modulo 512, for i and j that are not negative. */
  function Minus(i: int, j: int): (r: int)
    requires 0 <= i && 0 <= j
    ensures 0 <= r < TABLE && (i - j - r) % TABLE == 0
  {
    var i', j' := if i >= TABLE then i % TABLE else i, if j >= TABLE then j % TABLE else j;
    if i' >= j' then i' - j' else TABLE + i' - j'
  }

  /** A signed char widened to an unsigned word. */
  function CharWord(c: int): word
    requires -128 <= c < 128
  {
    if c >= 0 then c else c + Bits.INT
  }

  // The key expansion and the two tables it starts from.

  function NextWord(w2: word, w7: word, w15: word, w16: word, i: nat): word
    requires i < EXPANDED
  {
    Plus(Plus(Plus(Plus(F2(w2), w7), F1(w15)), w16), i)
  }

  /** The first n words of the expanded key. */
  function Expansion(key: Key, n: nat): (w: seq<word>)
    requires n <= EXPANDED
    ensures |w| == n
    decreases n, key
  {
    if n == 0 then []
    else
      var w, i := Expansion(key, n - 1), n - 1;
      w + [if i < 16 then CharWord(key[i]) else NextWord(w[i - 2], w[i - 7], w[i - 15], w[i - 16], i)]
  }

  lemma {:induction false} ExpansionNext(key: Key, i: nat, w: seq<word>, a: word, b: word, c: word, d: word)
    requires 16 <= i < EXPANDED && w == Expansion(key, i)
    requires a == w[i - 2] && b == w[i - 7] && c == w[i - 15] && d == w[i - 16]
    ensures Expansion(key, i + 1) == w + [NextWord(a, b, c, d, i)]
  {
  }

  function NextP(p: Table, i: nat): word
    requires i < TABLE
  {
    Plus(p[i], G1(p[Minus(i, 3)], p[Minus(i, 10)], p[Minus(i, 511)]))
  }

  function NextQ(q: Table, i: nat): word
    requires i < TABLE
  {
    Plus(q[i], G2(q[Minus(i, 3)], q[Minus(i, 10)], q[Minus(i, 511)]))
  }

  /** P after its first n entries are mixed with the untouched Q. */
  function MixP(p: Table, q: Table, n: nat): Table
    requires n <= TABLE
    decreases n, p
  {
    if n == 0 then p
    else
      var t := MixP(p, q, n - 1);
      t[n - 1 := XorWords(NextP(t, n - 1), H(q, t[Minus(n - 1, 12)]))]
  }

  /** Q after its first n entries are mixed with the mixed P. */
  function MixQ(p: Table, q: Table, n: nat): Table
    requires n <= TABLE
    decreases n, q
  {
    if n == 0 then q
    else
      var t := MixQ(p, q, n - 1);
      t[n - 1 := XorWords(NextQ(t, n - 1), H(p, t[Minus(n - 1, 12)]))]
  }

  function Start(key: Key): State
  {
    var w := Expansion(key, EXPANDED);
    var p := MixP(w[256..768], w[768..1280], TABLE);
    State(p, MixQ(p, w[768..1280], TABLE))
  }

  // Generation: 512 words from P, then 512 from Q, and so on.

  function Step(st: State, i: nat): State
  {
    var j := i % TABLE;
    if i % 1024 < TABLE then st.(p := st.p[j := NextP(st.p, j)])
    else st.(q := st.q[j := NextQ(st.q, j)])
  }

  /** Word i of the stream, from the tables as step i leaves them. */
  function Output(st: State, i: nat): word
  {
    var j := i % TABLE;
    if i % 1024 < TABLE then XorWords(H(st.q, st.p[Minus(j, 12)]), st.p[j])
    else XorWords(H(st.p, st.q[Minus(j, 12)]), st.q[j])
  }

  function Run(key: Key, n: nat): State
    decreases n, key
  {
    if n == 0 then Start(key) else Step(Run(key, n - 1), n - 1)
  }

  /** Word i of the keystream of a key. */
  function Stream(key: Key, i: nat): word
  {
    Output(Run(key, i + 1), i)
  }

  /** The first n words of the keystream. */
  function Words(key: Key, n: nat): (s: seq<word>)
    ensures |s| == n
    decreases n, key
  {
    if n == 0 then [] else Words(key, n - 1) + [Stream(key, n - 1)]
  }

  lemma {:induction false} WordAt(key: Key, n: nat, k: nat)
    requires k < n
    ensures Words(key, n)[k] == Stream(key, k)
    decreases n
  {
    if k < n - 1 { WordAt(key, n - 1, k); }
  }

  /** A shorter call gives the beginning of what a longer call gives. */
  lemma {:induction false} WordsPrefix(key: Key, m: nat, n: nat)
    requires m <= n
    ensures Words(key, n)[..m] == Words(key, m)
  {
    forall k | 0 <= k < m ensures Words(key, n)[k] == Words(key, m)[k] {
      WordAt(key, n, k);
      WordAt(key, m, k);
    }
  }

  /** The generator's global tables. Whatever they hold, a call sets them up afresh. */
  class Generator {
    const P: array<word>
    const Q: array<word>
    const K: array<word>
    const IV: array<word>
    const W: array<word>

    ghost predicate Valid()
    {
      && P.Length == TABLE && Q.Length == TABLE && K.Length == 8 && IV.Length == 8 && W.Length == EXPANDED
      && P != Q && P != K && P != IV && P != W && Q != K && Q != IV && Q != W && K != IV && K != W && IV != W
    }

    constructor ()
      ensures Valid() && fresh(P) && fresh(Q) && fresh(K) && fresh(IV) && fresh(W)
    {
      P := new word[TABLE](_ => 0);
      Q := new word[TABLE](_ => 0);
      K := new word[8](_ => 0);
      IV := new word[8](_ => 0);
      W := new word[EXPANDED](_ => 0);
    }

    ghost predicate Keyed(key: Key)
      requires Valid()
      reads K, IV
    {
      forall i | 0 <= i < 8 :: K[i] == CharWord(key[i]) && IV[i] == CharWord(key[i + 8])
    }

    method SetKey(key: Key)
      requires Valid()
      modifies K, IV
      ensures Keyed(key)
    {
      for i := 0 to 8
        invariant forall k | 0 <= k < i :: K[k] == CharWord(key[k]) && IV[k] == CharWord(key[k + 8])
      {
        K[i] := CharWord(key[i]);
        IV[i] := CharWord(key[i + 8]);
      }
    }

    method CopyKey(ghost key: Key)
      requires Valid() && Keyed(key)
      modifies W
      ensures W[..16] == Expansion(key, 16)
    {
      ghost var done: seq<word> := [];
      for i := 0 to 8
        invariant W[..i] == done && done == Expansion(key, i)
      {
        W[i] := K[i];
        done := done + [CharWord(key[i])];
        assert W[..i + 1] == done;
      }
      for i := 0 to 8
        invariant W[..i + 8] == done && done == Expansion(key, i + 8)
      {
        W[i + 8] := IV[i];
        done := done + [CharWord(key[i + 8])];
        assert W[..i + 9] == done;
      }
    }

    method ExpandKey(ghost key: Key)
      requires Valid() && Keyed(key)
      modifies W
      ensures W[..] == Expansion(key, EXPANDED)
    {
      CopyKey(key);
      for i := 16 to EXPANDED
        invariant W[..i] == Expansion(key, i)
      {
        ExpandWord(key, i);
      }
      assert W[..EXPANDED] == W[..];
    }

    method ExpandWord(ghost key: Key, i: nat)
      requires Valid() && 16 <= i < EXPANDED && W[..i] == Expansion(key, i)
      modifies W
      ensures W[..i + 1] == Expansion(key, i + 1)
    {
      ghost var done := W[..i];
      var a, b, c, d := W[i - 2], W[i - 7], W[i - 15], W[i - 16];
      ExpansionNext(key, i, done, a, b, c, d);
      W[i] := NextWord(a, b, c, d, i);
      assert W[..i + 1] == done + [W[i]];
    }

    method LoadTables()
      requires Valid()
      modifies P, Q
      ensures P[..] == W[256..768] && Q[..] == W[768..1280]
    {
      for i := 0 to TABLE
        invariant forall k | 0 <= k < i :: P[k] == W[k + 256] && Q[k] == W[k + 768]
      {
        P[i] := W[i + 256];
        Q[i] := W[i + 768];
      }
    }

    method MixTableP()
      requires Valid()
      modifies P
      ensures P[..] == MixP(old(P[..]), Q[..], TABLE)
    {
      for i := 0 to TABLE
        invariant P[..] == MixP(old(P[..]), Q[..], i)
      {
        P[i] := XorWords(NextP(P[..], i), H(Q[..], P[Minus(i, 12)]));
      }
    }

    method MixTableQ()
      requires Valid()
      modifies Q
      ensures Q[..] == MixQ(P[..], old(Q[..]), TABLE)
    {
      for i := 0 to TABLE
        invariant Q[..] == MixQ(P[..], old(Q[..]), i)
      {
        Q[i] := XorWords(NextQ(Q[..], i), H(P[..], Q[Minus(i, 12)]));
      }
    }

    ghost function Tables(): State
      requires Valid()
      reads P, Q
    {
      State(P[..], Q[..])
    }

    /** Key setup. */
    method Ksa(ghost key: Key)
      requires Valid() && Keyed(key)
      modifies P, Q, W
      ensures Tables() == Start(key)
    {
      ExpandKey(key);
      LoadTables();
      MixTableP();
      MixTableQ();
    }

    /** One step of the generator. */
    method NextWordOut(i: nat) returns (out: word)
      requires Valid()
      modifies P, Q
      ensures Tables() == Step(old(Tables()), i)
      ensures out == Output(Tables(), i)
    {
      var j := i % TABLE;
      if i % 1024 < TABLE {
        P[j] := NextP(P[..], j);
        out := XorWords(H(Q[..], P[Minus(j, 12)]), P[j]);
      } else {
        Q[j] := NextQ(Q[..], j);
        out := XorWords(H(P[..], Q[Minus(j, 12)]), Q[j]);
      }
    }

    /** One more word of the keystream, put in its place in the buffer. */
    method PutWord(ghost key: Key, i: nat, s: array<word>)
      requires Valid() && i < s.Length && s != P && s != Q
      requires Tables() == Run(key, i) && s[..i] == Words(key, i)
      modifies P, Q, s
      ensures Tables() == Run(key, i + 1) && s[..i + 1] == Words(key, i + 1)
      ensures forall k | i < k < s.Length :: s[k] == old(s[k])
    {
      var out := NextWordOut(i);
      s[i] := out;
      assert s[..i + 1] == s[..i] + [out];
    }

    /** The first nr words of the keystream, whatever the tables held before. */
    method Encrypt(key: Key, nr: nat, s: array<word>)
      requires Valid() && nr <= s.Length
      requires s != P && s != Q && s != K && s != IV && s != W
      modifies P, Q, K, IV, W, s
      ensures s[..nr] == Words(key, nr) && s[nr..] == old(s[nr..])
    {
      SetKey(key);
      Ksa(key);
      var i := 0;
      while i < nr
        invariant 0 <= i <= nr
        invariant Tables() == Run(key, i)
        invariant s[..i] == Words(key, i)
        invariant forall k | nr <= k < s.Length :: s[k] == old(s[k])
      {
        PutWord(key, i, s);
        i := i + 1;
      }
    }
  }
}
