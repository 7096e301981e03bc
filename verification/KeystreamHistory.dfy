/** The keystream as one definition: three histories of words, each word computed from earlier
    ones at fixed distances, and no table that is overwritten. */
module KeystreamHistory {
  import opened Bits
  import opened WordArithmetic
  import opened Keystream

  /** Word i of the expanded key. */
  ghost function KeyWord(key: Key, i: nat): word
    requires i < 1280
    decreases i, key
  {
    if i < 16 then key[i] % 0x1_0000_0000
    else
      Plus(Plus(Plus(Plus(NearMix(KeyWord(key, i - 2)), KeyWord(key, i - 7)), FarMix(KeyWord(key, i - 15))),
                KeyWord(key, i - 16)), i)
  }

  /** What the word at distance 2 adds to one of the expanded key. */
  function NearMix(x: word): word
  {
    XorWords(XorWords(RotateRight(x, 17), RotateRight(x, 19)), ShiftRight(x, 10))
  }

  /** What the word at distance 15 adds. */
  function FarMix(x: word): word
  {
    XorWords(XorWords(RotateRight(x, 7), RotateRight(x, 18)), ShiftRight(x, 3))
  }

  /** What the words at distances 3, 10 and 511 add to a word of the first table. */
  function RightMix(x: word, y: word, z: word): word
  {
    Plus(XorWords(RotateRight(x, 10), RotateRight(z, 23)), RotateRight(y, 8))
  }

  /** What they add to a word of the second. */
  function LeftMix(x: word, y: word, z: word): word
  {
    Plus(XorWords(RotateLeft(x, 10), RotateLeft(z, 23)), RotateLeft(y, 8))
  }

  /** Word k of the first table's history: 512 words of the expanded key, 512 mixed with the
      second table as it is then, and the others. */
  ghost function PWord(key: Key, k: nat): word
    decreases 1, k, key
  {
    if k < 512 then KeyWord(key, 256 + k)
    else
      var sum := Plus(PWord(key, k - 512), RightMix(PWord(key, k - 3), PWord(key, k - 10), PWord(key, k - 511)));
      if k >= 1024 then sum
      else
        var x := PWord(key, k - 12);
        XorWords(sum, Plus(QWord(key, x % 256), QWord(key, 256 + x / 0x1_0000 % 256)))
  }

  /** Word k of the second table's history: 512 words of the expanded key, 512 mixed with the
      first table after it has been mixed itself, and the others. */
  ghost function QWord(key: Key, k: nat): word
    decreases if k < 512 then 0 else 2, k, key
  {
    if k < 512 then KeyWord(key, 768 + k)
    else
      var sum := Plus(QWord(key, k - 512), LeftMix(QWord(key, k - 3), QWord(key, k - 10), QWord(key, k - 511)));
      if k >= 1024 then sum
      else
        var x := QWord(key, k - 12);
        XorWords(sum, Plus(PWord(key, 512 + x % 256), PWord(key, 768 + x / 0x1_0000 % 256)))
  }

  /** Word i of the keystream: 512 words from the next ones of the first history and the last 512
      of the second, then 512 the other way round, and so on. */
  ghost function StreamWord(key: Key, i: nat): word
  {
    var round, k := 512 * (i / 1024), 1024 + 512 * (i / 1024) + i % 512;
    if i % 1024 < 512 then
      var x := PWord(key, k - 12);
      XorWords(Plus(QWord(key, 512 + round + x % 256), QWord(key, 768 + round + x / 0x1_0000 % 256)), PWord(key, k))
    else
      var x := QWord(key, k - 12);
      XorWords(Plus(PWord(key, 1024 + round + x % 256), PWord(key, 1280 + round + x / 0x1_0000 % 256)), QWord(key, k))
  }

  // The expanded key.

  lemma {:induction false} ShrBy(x: nat, n: nat, p: nat)
    requires p == Pow2(n)
    ensures Shr(x, n) == x / p
  {
    ShrIsDiv(x, n);
  }

  lemma {:induction false} ThirdByte(x: word)
    ensures ShiftRight(x, 16) == x / 0x1_0000
  {
    SquarePow2(8, 0x100);
    ShrBy(x, 16, 0x1_0000);
  }

  /** A character of the key is taken modulo 2^32. */
  lemma {:induction false} CharWordIs(c: int)
    requires -128 <= c < 128
    ensures CharWord(c) == c % 0x1_0000_0000
  {
  }

  lemma {:induction false} KeyWordNext(key: Key, i: nat)
    requires 16 <= i < EXPANDED
    ensures KeyWord(key, i)
         == NextWord(KeyWord(key, i - 2), KeyWord(key, i - 7), KeyWord(key, i - 15), KeyWord(key, i - 16), i)
  {
  }

  /** The expanded key. */
  lemma {:induction false} ExpansionIs(key: Key, n: nat, i: nat)
    requires i < n <= EXPANDED
    ensures Expansion(key, n)[i] == KeyWord(key, i)
    decreases n
  {
    var w := Expansion(key, n - 1);
    if i < n - 1 {
      ExpansionIs(key, n - 1, i);
    } else if i < 16 {
      CharWordIs(key[i]);
    } else {
      ExpansionIs(key, n - 1, i - 2);
      ExpansionIs(key, n - 1, i - 7);
      ExpansionIs(key, n - 1, i - 15);
      ExpansionIs(key, n - 1, i - 16);
      KeyWordNext(key, i);
    }
  }

  // Tables and histories.

  /** The place in the history of what is in place j of a table after n updates. */
  function Last(n: nat, j: nat): nat
    requires j < TABLE
  {
    j + 512 * ((n + 511 - j) / 512)
  }

  lemma {:induction false} LastBack(n: nat, d: nat)
    requires 1 <= d <= 511
    ensures Last(n, Minus(n % TABLE, d)) == 512 + n - d
  {
  }

  lemma {:induction false} LastNext(n: nat, j: nat)
    requires j < TABLE
    ensures Last(n, n % TABLE) == n
    ensures Last(n + 1, j) == if j == n % TABLE then 512 + n else Last(n, j)
  {
  }

  /** Place j of a table updated n times holds the word that it should. */
  ghost predicate AtP(key: Key, p: Table, n: nat, j: nat)
    requires j < TABLE
  {
    p[j] == PWord(key, Last(n, j))
  }

  ghost predicate AtQ(key: Key, q: Table, n: nat, j: nat)
    requires j < TABLE
  {
    q[j] == QWord(key, Last(n, j))
  }

  ghost predicate HoldsP(key: Key, p: Table, n: nat)
  {
    forall j | 0 <= j < TABLE :: AtP(key, p, n, j)
  }

  ghost predicate HoldsQ(key: Key, q: Table, n: nat)
  {
    forall j | 0 <= j < TABLE :: AtQ(key, q, n, j)
  }

  lemma {:induction false} UpdateP(key: Key, p: Table, n: nat, v: word)
    requires HoldsP(key, p, n) && v == PWord(key, 512 + n)
    ensures HoldsP(key, p[n % TABLE := v], n + 1)
  {
    var r, m := p[n % TABLE := v], n + 1;
    forall j | 0 <= j < TABLE ensures AtP(key, r, m, j) {
      LastNext(n, j);
      assert AtP(key, p, n, j);
    }
  }

  lemma {:induction false} UpdateQ(key: Key, q: Table, n: nat, v: word)
    requires HoldsQ(key, q, n) && v == QWord(key, 512 + n)
    ensures HoldsQ(key, q[n % TABLE := v], n + 1)
  {
    var r, m := q[n % TABLE := v], n + 1;
    forall j | 0 <= j < TABLE ensures AtQ(key, r, m, j) {
      LastNext(n, j);
      assert AtQ(key, q, n, j);
    }
  }

  lemma {:induction false} ReadP(key: Key, p: Table, n: nat, d: nat)
    requires HoldsP(key, p, n) && 1 <= d <= 511
    ensures p[Minus(n % TABLE, d)] == PWord(key, 512 + n - d)
  {
    LastBack(n, d);
    assert AtP(key, p, n, Minus(n % TABLE, d));
  }

  lemma {:induction false} ReadQ(key: Key, q: Table, n: nat, d: nat)
    requires HoldsQ(key, q, n) && 1 <= d <= 511
    ensures q[Minus(n % TABLE, d)] == QWord(key, 512 + n - d)
  {
    LastBack(n, d);
    assert AtQ(key, q, n, Minus(n % TABLE, d));
  }

  /** The next update reads the words at distances 512, 3, 10 and 511. */
  lemma {:induction false} SumP(key: Key, p: Table, n: nat)
    requires HoldsP(key, p, n)
    ensures NextP(p, n % TABLE)
         == Plus(PWord(key, n), RightMix(PWord(key, 509 + n), PWord(key, 502 + n), PWord(key, 1 + n)))
  {
    ReadP(key, p, n, 3);
    ReadP(key, p, n, 10);
    ReadP(key, p, n, 511);
    LastNext(n, 0);
    assert AtP(key, p, n, n % TABLE);
  }

  lemma {:induction false} SumQ(key: Key, q: Table, n: nat)
    requires HoldsQ(key, q, n)
    ensures NextQ(q, n % TABLE)
         == Plus(QWord(key, n), LeftMix(QWord(key, 509 + n), QWord(key, 502 + n), QWord(key, 1 + n)))
  {
    ReadQ(key, q, n, 3);
    ReadQ(key, q, n, 10);
    ReadQ(key, q, n, 511);
    LastNext(n, 0);
    assert AtQ(key, q, n, n % TABLE);
  }

  lemma {:induction false} WholeRounds(c: nat, j: nat)
    requires j < TABLE
    ensures Last(512 * c, j) == 512 * c + j
  {
  }

  lemma {:induction false} WholeP(key: Key, p: Table, c: nat, j: nat)
    requires HoldsP(key, p, 512 * c) && j < TABLE
    ensures p[j] == PWord(key, 512 * c + j)
  {
    WholeRounds(c, j);
    assert AtP(key, p, 512 * c, j);
  }

  lemma {:induction false} WholeQ(key: Key, q: Table, c: nat, j: nat)
    requires HoldsQ(key, q, 512 * c) && j < TABLE
    ensures q[j] == QWord(key, 512 * c + j)
  {
    WholeRounds(c, j);
    assert AtQ(key, q, 512 * c, j);
  }

  /** A table after whole rounds of updates holds the last 512 words of its history. */
  lemma {:induction false} PickP(key: Key, p: Table, c: nat, x: word)
    requires HoldsP(key, p, 512 * c)
    ensures H(p, x) == Plus(PWord(key, 512 * c + x % 256), PWord(key, 512 * c + 256 + x / 0x1_0000 % 256))
  {
    ThirdByte(x);
    WholeP(key, p, c, x % 256);
    WholeP(key, p, c, 256 + x / 0x1_0000 % 256);
  }

  lemma {:induction false} PickQ(key: Key, q: Table, c: nat, x: word)
    requires HoldsQ(key, q, 512 * c)
    ensures H(q, x) == Plus(QWord(key, 512 * c + x % 256), QWord(key, 512 * c + 256 + x / 0x1_0000 % 256))
  {
    ThirdByte(x);
    WholeQ(key, q, c, x % 256);
    WholeQ(key, q, c, 256 + x / 0x1_0000 % 256);
  }

  // Key setup.

  lemma {:induction false} MixedP(key: Key, n: nat, x: word)
    requires n < 512 && x == PWord(key, 500 + n)
    ensures PWord(key, 512 + n)
         == XorWords(Plus(PWord(key, n), RightMix(PWord(key, 509 + n), PWord(key, 502 + n), PWord(key, 1 + n))),
                     Plus(QWord(key, x % 256), QWord(key, 256 + x / 0x1_0000 % 256)))
  {
  }

  lemma {:induction false} MixedQ(key: Key, n: nat, x: word)
    requires n < 512 && x == QWord(key, 500 + n)
    ensures QWord(key, 512 + n)
         == XorWords(Plus(QWord(key, n), LeftMix(QWord(key, 509 + n), QWord(key, 502 + n), QWord(key, 1 + n))),
                     Plus(PWord(key, 512 + x % 256), PWord(key, 768 + x / 0x1_0000 % 256)))
  {
    hide Xor, ShiftRight, ShiftLeft, Shr, Plus, XorWords;
  }

  lemma {:induction false} MixNextP(key: Key, p: Table, q: Table, n: nat)
    requires HoldsP(key, p, n) && HoldsQ(key, q, 512 * 0) && n < 512
    ensures XorWords(NextP(p, n), H(q, p[Minus(n, 12)])) == PWord(key, 512 + n)
  {
    hide Xor, ShiftRight, ShiftLeft, Shr, Plus, XorWords;
    SumP(key, p, n);
    ReadP(key, p, n, 12);
    PickQ(key, q, 0, p[Minus(n, 12)]);
    MixedP(key, n, p[Minus(n, 12)]);
  }

  lemma {:induction false} MixNextQ(key: Key, p: Table, q: Table, n: nat)
    requires HoldsP(key, p, 512 * 1) && HoldsQ(key, q, n) && n < 512
    ensures XorWords(NextQ(q, n), H(p, q[Minus(n, 12)])) == QWord(key, 512 + n)
  {
    hide Xor, ShiftRight, ShiftLeft, Shr, Plus, XorWords;
    SumQ(key, q, n);
    ReadQ(key, q, n, 12);
    PickP(key, p, 1, q[Minus(n, 12)]);
    MixedQ(key, n, q[Minus(n, 12)]);
  }

  lemma {:induction false} MixStepP(key: Key, p: Table, q: Table, n: nat)
    requires HoldsP(key, p, n) && HoldsQ(key, q, 512 * 0) && n < 512
    ensures HoldsP(key, p[n := XorWords(NextP(p, n), H(q, p[Minus(n, 12)]))], n + 1)
  {
    hide H, NextP, XorWords, PWord, QWord, HoldsP, HoldsQ;
    MixNextP(key, p, q, n);
    UpdateP(key, p, n, XorWords(NextP(p, n), H(q, p[Minus(n, 12)])));
  }

  lemma {:induction false} MixStepQ(key: Key, p: Table, q: Table, n: nat)
    requires HoldsP(key, p, 512 * 1) && HoldsQ(key, q, n) && n < 512
    ensures HoldsQ(key, q[n := XorWords(NextQ(q, n), H(p, q[Minus(n, 12)]))], n + 1)
  {
    hide H, NextQ, XorWords, PWord, QWord, HoldsP, HoldsQ;
    MixNextQ(key, p, q, n);
    UpdateQ(key, q, n, XorWords(NextQ(q, n), H(p, q[Minus(n, 12)])));
  }

  lemma {:induction false} MixPIs(key: Key, p: Table, q: Table, n: nat)
    requires HoldsP(key, p, 0) && HoldsQ(key, q, 512 * 0) && n <= 512
    ensures HoldsP(key, MixP(p, q, n), n)
  {
    hide H, NextP, XorWords, HoldsP, HoldsQ;
    if n > 0 {
      MixPIs(key, p, q, n - 1);
      MixStepP(key, MixP(p, q, n - 1), q, n - 1);
    }
  }

  lemma {:induction false} MixQIs(key: Key, p: Table, q: Table, n: nat)
    requires HoldsP(key, p, 512 * 1) && HoldsQ(key, q, 0) && n <= 512
    ensures HoldsQ(key, MixQ(p, q, n), n)
  {
    hide H, NextQ, XorWords, HoldsP, HoldsQ;
    if n > 0 {
      MixQIs(key, p, q, n - 1);
      MixStepQ(key, p, MixQ(p, q, n - 1), n - 1);
    }
  }

  lemma {:induction false} StartIs(key: Key)
    ensures HoldsP(key, Start(key).p, 512) && HoldsQ(key, Start(key).q, 512)
  {
    var w := Expansion(key, EXPANDED);
    var p, q := w[256..768], w[768..1280];
    forall j | 0 <= j < TABLE ensures AtP(key, p, 0, j) && AtQ(key, q, 0, j) {
      ExpansionIs(key, EXPANDED, 256 + j);
      ExpansionIs(key, EXPANDED, 768 + j);
      WholeRounds(0, j);
    }
    MixPIs(key, p, q, 512);
    MixQIs(key, MixP(p, q, 512), q, 512);
  }

  // Generation.

  /** How often each table has been updated before word n is generated. */
  function StepsP(n: nat): nat
  {
    512 + 512 * (n / 1024) + if n % 1024 < 512 then n % 1024 else 512
  }

  function StepsQ(n: nat): nat
  {
    512 + 512 * (n / 1024) + if n % 1024 < 512 then 0 else n % 1024 - 512
  }

  lemma {:induction false} RoundNext(n: nat)
    ensures n % 1024 < 1023 ==> (n + 1) / 1024 == n / 1024 && (n + 1) % 1024 == n % 1024 + 1
    ensures n % 1024 == 1023 ==> (n + 1) / 1024 == n / 1024 + 1 && (n + 1) % 1024 == 0
  {
  }

  lemma {:induction false} StepCount(n: nat)
    ensures if n % 1024 < 512 then StepsP(n + 1) == StepsP(n) + 1 && StepsQ(n + 1) == StepsQ(n)
            else StepsP(n + 1) == StepsP(n) && StepsQ(n + 1) == StepsQ(n) + 1
  {
    RoundNext(n);
  }

  lemma {:induction false} StepPlace(n: nat)
    ensures if n % 1024 < 512 then StepsP(n) % TABLE == n % TABLE else StepsQ(n) % TABLE == n % TABLE
  {
    var c, r := n / 1024, n % 1024;
    assert n == 1024 * c + r;
  }

  lemma {:induction false} NextPIs(key: Key, p: Table, n: nat)
    requires HoldsP(key, p, n) && n >= 512
    ensures NextP(p, n % TABLE) == PWord(key, 512 + n)
  {
    SumP(key, p, n);
  }

  lemma {:induction false} NextQIs(key: Key, q: Table, n: nat)
    requires HoldsQ(key, q, n) && n >= 512
    ensures NextQ(q, n % TABLE) == QWord(key, 512 + n)
  {
    SumQ(key, q, n);
  }

  lemma {:induction false} RunIs(key: Key, n: nat)
    ensures HoldsP(key, Run(key, n).p, StepsP(n)) && HoldsQ(key, Run(key, n).q, StepsQ(n))
  {
    if n == 0 {
      StartIs(key);
    } else {
      RunIs(key, n - 1);
      StepIs(key, Run(key, n - 1), n - 1);
    }
  }

  lemma {:induction false} StepIs(key: Key, st: State, n: nat)
    requires HoldsP(key, st.p, StepsP(n)) && HoldsQ(key, st.q, StepsQ(n))
    ensures var r := Step(st, n); HoldsP(key, r.p, StepsP(n + 1)) && HoldsQ(key, r.q, StepsQ(n + 1))
  {
    StepCount(n);
    StepPlace(n);
    if n % 1024 < 512 {
      NextPIs(key, st.p, StepsP(n));
      UpdateP(key, st.p, StepsP(n), PWord(key, 512 + StepsP(n)));
    } else {
      NextQIs(key, st.q, StepsQ(n));
      UpdateQ(key, st.q, StepsQ(n), QWord(key, 512 + StepsQ(n)));
    }
  }

  /** After an update its place holds the new word, and the places before it hold what they did. */
  lemma {:induction false} LatestP(key: Key, p: Table, n: nat)
    requires HoldsP(key, p, n + 1)
    ensures p[n % TABLE] == PWord(key, 512 + n) && p[Minus(n % TABLE, 12)] == PWord(key, 500 + n)
  {
    LastNext(n, n % TABLE);
    LastEarlier(n, 12);
    assert AtP(key, p, n + 1, n % TABLE) && AtP(key, p, n + 1, Minus(n % TABLE, 12));
  }

  lemma {:induction false} LatestQ(key: Key, q: Table, n: nat)
    requires HoldsQ(key, q, n + 1)
    ensures q[n % TABLE] == QWord(key, 512 + n) && q[Minus(n % TABLE, 12)] == QWord(key, 500 + n)
  {
    LastNext(n, n % TABLE);
    LastEarlier(n, 12);
    assert AtQ(key, q, n + 1, n % TABLE) && AtQ(key, q, n + 1, Minus(n % TABLE, 12));
  }

  lemma {:induction false} LastEarlier(n: nat, d: nat)
    requires 1 <= d <= 511
    ensures Last(n + 1, Minus(n % TABLE, d)) == 512 + n - d
  {
  }

  lemma {:induction false} OutputP(key: Key, st: State, i: nat, n: nat)
    requires i % 1024 < 512 && n == StepsP(i) && n % TABLE == i % TABLE
    requires HoldsP(key, st.p, n + 1) && HoldsQ(key, st.q, 512 * (1 + i / 1024))
    ensures Output(st, i) == StreamWord(key, i)
  {
    hide H, Plus, XorWords, PWord, QWord;
    LatestP(key, st.p, n);
    PickQ(key, st.q, 1 + i / 1024, st.p[Minus(n % TABLE, 12)]);
  }

  lemma {:induction false} OutputQ(key: Key, st: State, i: nat, n: nat)
    requires i % 1024 >= 512 && n == StepsQ(i) && n % TABLE == i % TABLE
    requires HoldsP(key, st.p, 512 * (2 + i / 1024)) && HoldsQ(key, st.q, n + 1)
    ensures Output(st, i) == StreamWord(key, i)
  {
    hide H, Plus, XorWords, PWord, QWord;
    LatestQ(key, st.q, n);
    PickP(key, st.p, 2 + i / 1024, st.q[Minus(n % TABLE, 12)]);
  }

  /** The generator's output is the keystream as defined by the histories. */
  lemma {:induction false} StreamIs(key: Key, i: nat)
    ensures Stream(key, i) == StreamWord(key, i)
  {
    hide Output, StreamWord, HoldsP, HoldsQ, Run;
    RunIs(key, i + 1);
    StepCount(i);
    StepPlace(i);
    if i % 1024 < 512 {
      OutputP(key, Run(key, i + 1), i, StepsP(i));
    } else {
      OutputQ(key, Run(key, i + 1), i, StepsQ(i));
    }
  }
}
