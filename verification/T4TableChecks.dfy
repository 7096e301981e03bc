/** The two T.4 tables meet the decoder's conditions. The code words sorted by the windows they
    begin are checked row by row; that they are all of the table's follows by counting. */
module T4TableChecks {
  import opened T4Tables

  // The white code words sorted by their 13-bit windows.

  const WTAB_ROW_0: seq<T4Code> :=
    [T4Code(8, 11, 1792), T4Code(18, 12, 1984), T4Code(19, 12, 2048), T4Code(20, 12, 2112), T4Code(21, 12, 2176),
     T4Code(22, 12, 2240), T4Code(23, 12, 2304), T4Code(12, 11, 1856)]

  const WTAB_ROW_1: seq<T4Code> :=
    [T4Code(13, 11, 1920), T4Code(28, 12, 2368), T4Code(29, 12, 2432), T4Code(30, 12, 2496), T4Code(31, 12, 2560),
     T4Code(2, 8, 29), T4Code(3, 8, 30), T4Code(4, 8, 45)]

  const WTAB_ROW_2: seq<T4Code> :=
    [T4Code(5, 8, 46), T4Code(3, 7, 22), T4Code(4, 7, 23), T4Code(10, 8, 47), T4Code(11, 8, 48),
     T4Code(3, 6, 13), T4Code(8, 7, 20), T4Code(18, 8, 33)]

  const WTAB_ROW_3: seq<T4Code> :=
    [T4Code(19, 8, 34), T4Code(20, 8, 35), T4Code(21, 8, 36), T4Code(22, 8, 37), T4Code(23, 8, 38),
     T4Code(12, 7, 19), T4Code(26, 8, 31), T4Code(27, 8, 32)]

  const WTAB_ROW_4: seq<T4Code> :=
    [T4Code(7, 6, 1), T4Code(8, 6, 12), T4Code(36, 8, 53), T4Code(37, 8, 54), T4Code(19, 7, 26),
     T4Code(40, 8, 39), T4Code(41, 8, 40), T4Code(42, 8, 41)]

  const WTAB_ROW_5: seq<T4Code> :=
    [T4Code(43, 8, 42), T4Code(44, 8, 43), T4Code(45, 8, 44), T4Code(23, 7, 21), T4Code(24, 7, 28),
     T4Code(50, 8, 61), T4Code(51, 8, 62), T4Code(52, 8, 63)]

  const WTAB_ROW_6: seq<T4Code> :=
    [T4Code(53, 8, 0), T4Code(54, 8, 320), T4Code(55, 8, 384), T4Code(7, 5, 10), T4Code(8, 5, 11),
     T4Code(36, 7, 27), T4Code(74, 8, 59), T4Code(75, 8, 60)]

  const WTAB_ROW_7: seq<T4Code> :=
    [T4Code(152, 9, 1472), T4Code(153, 9, 1536), T4Code(154, 9, 1600), T4Code(155, 9, 1728), T4Code(39, 7, 18),
     T4Code(40, 7, 24), T4Code(82, 8, 49), T4Code(83, 8, 50)]

  const WTAB_ROW_8: seq<T4Code> :=
    [T4Code(84, 8, 51), T4Code(85, 8, 52), T4Code(43, 7, 25), T4Code(88, 8, 55), T4Code(89, 8, 56),
     T4Code(90, 8, 57), T4Code(91, 8, 58), T4Code(23, 6, 192)]

  const WTAB_ROW_9: seq<T4Code> :=
    [T4Code(24, 6, 1664), T4Code(100, 8, 448), T4Code(101, 8, 512), T4Code(204, 9, 704), T4Code(205, 9, 768),
     T4Code(103, 8, 640), T4Code(104, 8, 576), T4Code(210, 9, 832)]

  const WTAB_ROW_10: seq<T4Code> :=
    [T4Code(211, 9, 896), T4Code(212, 9, 960), T4Code(213, 9, 1024), T4Code(214, 9, 1088), T4Code(215, 9, 1152),
     T4Code(216, 9, 1216), T4Code(217, 9, 1280), T4Code(218, 9, 1344)]

  const WTAB_ROW_11: seq<T4Code> :=
    [T4Code(219, 9, 1408), T4Code(55, 7, 256), T4Code(7, 4, 2), T4Code(8, 4, 3), T4Code(18, 5, 128),
     T4Code(19, 5, 8), T4Code(20, 5, 9), T4Code(42, 6, 16)]

  const WTAB_ROW_12: seq<T4Code> :=
    [T4Code(43, 6, 17), T4Code(11, 4, 4), T4Code(12, 4, 5), T4Code(52, 6, 14), T4Code(53, 6, 15),
     T4Code(27, 5, 64), T4Code(14, 4, 6), T4Code(15, 4, 7)]

  const WTAB_ROWS: seq<seq<T4Code>> :=
    [WTAB_ROW_0, WTAB_ROW_1, WTAB_ROW_2, WTAB_ROW_3, WTAB_ROW_4, WTAB_ROW_5, WTAB_ROW_6,
     WTAB_ROW_7, WTAB_ROW_8, WTAB_ROW_9, WTAB_ROW_10, WTAB_ROW_11, WTAB_ROW_12]

  // The black ones.

  const BTAB_ROW_0: seq<T4Code> :=
    [T4Code(8, 11, 1792), T4Code(18, 12, 1984), T4Code(19, 12, 2048), T4Code(20, 12, 2112), T4Code(21, 12, 2176),
     T4Code(22, 12, 2240), T4Code(23, 12, 2304), T4Code(12, 11, 1856)]

  const BTAB_ROW_1: seq<T4Code> :=
    [T4Code(13, 11, 1920), T4Code(28, 12, 2368), T4Code(29, 12, 2432), T4Code(30, 12, 2496), T4Code(31, 12, 2560),
     T4Code(8, 10, 18), T4Code(36, 12, 52), T4Code(74, 13, 640)]

  const BTAB_ROW_2: seq<T4Code> :=
    [T4Code(75, 13, 704), T4Code(76, 13, 768), T4Code(77, 13, 832), T4Code(39, 12, 55), T4Code(40, 12, 56),
     T4Code(82, 13, 1280), T4Code(83, 13, 1344), T4Code(84, 13, 1408)]

  const BTAB_ROW_3: seq<T4Code> :=
    [T4Code(85, 13, 1472), T4Code(43, 12, 59), T4Code(44, 12, 60), T4Code(90, 13, 1536), T4Code(91, 13, 1600),
     T4Code(23, 11, 24), T4Code(24, 11, 25), T4Code(100, 13, 1664)]

  const BTAB_ROW_4: seq<T4Code> :=
    [T4Code(101, 13, 1728), T4Code(51, 12, 320), T4Code(52, 12, 384), T4Code(53, 12, 448), T4Code(108, 13, 512),
     T4Code(109, 13, 576), T4Code(55, 12, 53), T4Code(56, 12, 54)]

  const BTAB_ROW_5: seq<T4Code> :=
    [T4Code(114, 13, 896), T4Code(115, 13, 960), T4Code(116, 13, 1024), T4Code(117, 13, 1088), T4Code(118, 13, 1152),
     T4Code(119, 13, 1216), T4Code(15, 10, 64), T4Code(4, 8, 13)]

  const BTAB_ROW_6: seq<T4Code> :=
    [T4Code(40, 11, 23), T4Code(82, 12, 50), T4Code(83, 12, 51), T4Code(84, 12, 44), T4Code(85, 12, 45),
     T4Code(86, 12, 46), T4Code(87, 12, 47), T4Code(88, 12, 57)]

  const BTAB_ROW_7: seq<T4Code> :=
    [T4Code(89, 12, 58), T4Code(90, 12, 61), T4Code(91, 12, 256), T4Code(23, 10, 16), T4Code(24, 10, 17),
     T4Code(100, 12, 48), T4Code(101, 12, 49), T4Code(102, 12, 62)]

  const BTAB_ROW_8: seq<T4Code> :=
    [T4Code(103, 12, 63), T4Code(104, 12, 30), T4Code(105, 12, 31), T4Code(106, 12, 32), T4Code(107, 12, 33),
     T4Code(108, 12, 40), T4Code(109, 12, 41), T4Code(55, 11, 22)]

  const BTAB_ROW_9: seq<T4Code> :=
    [T4Code(7, 8, 14), T4Code(4, 7, 10), T4Code(5, 7, 11), T4Code(24, 9, 15), T4Code(200, 12, 128),
     T4Code(201, 12, 192), T4Code(202, 12, 26), T4Code(203, 12, 27)]

  const BTAB_ROW_10: seq<T4Code> :=
    [T4Code(204, 12, 28), T4Code(205, 12, 29), T4Code(103, 11, 19), T4Code(104, 11, 20), T4Code(210, 12, 34),
     T4Code(211, 12, 35), T4Code(212, 12, 36), T4Code(213, 12, 37)]

  const BTAB_ROW_11: seq<T4Code> :=
    [T4Code(214, 12, 38), T4Code(215, 12, 39), T4Code(108, 11, 21), T4Code(218, 12, 42), T4Code(219, 12, 43),
     T4Code(55, 10, 0), T4Code(7, 7, 12), T4Code(4, 6, 9)]

  const BTAB_ROW_12: seq<T4Code> :=
    [T4Code(5, 6, 8), T4Code(3, 5, 7), T4Code(2, 4, 6), T4Code(3, 4, 5), T4Code(2, 3, 1),
     T4Code(3, 3, 4), T4Code(2, 2, 3), T4Code(3, 2, 2)]

  const BTAB_ROWS: seq<seq<T4Code>> :=
    [BTAB_ROW_0, BTAB_ROW_1, BTAB_ROW_2, BTAB_ROW_3, BTAB_ROW_4, BTAB_ROW_5, BTAB_ROW_6,
     BTAB_ROW_7, BTAB_ROW_8, BTAB_ROW_9, BTAB_ROW_10, BTAB_ROW_11, BTAB_ROW_12]

  const ROW := 8

  /** The entry for a run length. */
  function EntryOf(rlen: nat): nat
  {
    if rlen < TERMINATING then rlen else 63 + rlen / 64
  }

  /** The code word is an entry of the table, meets the conditions for a single one, and ends
      below the next. */
  predicate CheckedAt(t: seq<T4Code>, row: seq<T4Code>, i: nat)
    requires |t| == CODES + 1 && i < |row|
  {
    var k := EntryOf(row[i].rlen);
    && k < CODES && t[k] == row[i] && GoodCode(row[i], k)
    && (i + 1 < |row| ==> High(row[i]) <= Low(row[i + 1]))
  }

  predicate Checked(t: seq<T4Code>, row: seq<T4Code>, lo: nat, hi: nat)
    requires |t| == CODES + 1 && lo < hi <= |row|
    decreases hi - lo
  {
    if hi == lo + 1 then CheckedAt(t, row, lo)
    else Checked(t, row, lo, (lo + hi) / 2) && Checked(t, row, (lo + hi) / 2, hi)
  }

  predicate RowChecked(t: seq<T4Code>, row: seq<T4Code>)
  {
    |t| == CODES + 1 && |row| == ROW && forall i | 0 <= i < ROW :: CheckedAt(t, row, i)
  }

  lemma {:induction false} CheckedAll(t: seq<T4Code>, row: seq<T4Code>, lo: nat, hi: nat)
    requires |t| == CODES + 1 && lo < hi <= |row| && Checked(t, row, lo, hi)
    ensures forall i | lo <= i < hi :: CheckedAt(t, row, i)
    decreases hi - lo
  {
    if hi > lo + 1 {
      CheckedAll(t, row, lo, (lo + hi) / 2);
      CheckedAll(t, row, (lo + hi) / 2, hi);
    }
  }

  /** The rows together: each is checked, and ends below the next. */
  predicate Sorted(t: seq<T4Code>, rows: seq<seq<T4Code>>)
  {
    && |t| == CODES + 1 && |rows| * ROW == CODES
    && (forall r | 0 <= r < |rows| :: RowChecked(t, rows[r]))
    && (forall r | 0 <= r < |rows| - 1 :: High(rows[r][ROW - 1]) <= Low(rows[r + 1][0]))
  }

  lemma {:induction false} WhiteRow0()
    ensures RowChecked(WTAB, WTAB_ROW_0)
  {
    assert Checked(WTAB, WTAB_ROW_0, 0, 8);
    CheckedAll(WTAB, WTAB_ROW_0, 0, 8);
  }

  lemma {:induction false} WhiteRow1()
    ensures RowChecked(WTAB, WTAB_ROW_1)
  {
    assert Checked(WTAB, WTAB_ROW_1, 0, 8);
    CheckedAll(WTAB, WTAB_ROW_1, 0, 8);
  }

  lemma {:induction false} WhiteRow2()
    ensures RowChecked(WTAB, WTAB_ROW_2)
  {
    assert Checked(WTAB, WTAB_ROW_2, 0, 8);
    CheckedAll(WTAB, WTAB_ROW_2, 0, 8);
  }

  lemma {:induction false} WhiteRow3()
    ensures RowChecked(WTAB, WTAB_ROW_3)
  {
    assert Checked(WTAB, WTAB_ROW_3, 0, 8);
    CheckedAll(WTAB, WTAB_ROW_3, 0, 8);
  }

  lemma {:induction false} WhiteRow4()
    ensures RowChecked(WTAB, WTAB_ROW_4)
  {
    assert Checked(WTAB, WTAB_ROW_4, 0, 8);
    CheckedAll(WTAB, WTAB_ROW_4, 0, 8);
  }

  lemma {:induction false} WhiteRow5()
    ensures RowChecked(WTAB, WTAB_ROW_5)
  {
    assert Checked(WTAB, WTAB_ROW_5, 0, 8);
    CheckedAll(WTAB, WTAB_ROW_5, 0, 8);
  }

  lemma {:induction false} WhiteRow6()
    ensures RowChecked(WTAB, WTAB_ROW_6)
  {
    assert Checked(WTAB, WTAB_ROW_6, 0, 8);
    CheckedAll(WTAB, WTAB_ROW_6, 0, 8);
  }

  lemma {:induction false} WhiteRow7()
    ensures RowChecked(WTAB, WTAB_ROW_7)
  {
    assert Checked(WTAB, WTAB_ROW_7, 0, 8);
    CheckedAll(WTAB, WTAB_ROW_7, 0, 8);
  }

  lemma {:induction false} WhiteRow8()
    ensures RowChecked(WTAB, WTAB_ROW_8)
  {
    assert Checked(WTAB, WTAB_ROW_8, 0, 8);
    CheckedAll(WTAB, WTAB_ROW_8, 0, 8);
  }

  lemma {:induction false} WhiteRow9()
    ensures RowChecked(WTAB, WTAB_ROW_9)
  {
    assert Checked(WTAB, WTAB_ROW_9, 0, 8);
    CheckedAll(WTAB, WTAB_ROW_9, 0, 8);
  }

  lemma {:induction false} WhiteRow10()
    ensures RowChecked(WTAB, WTAB_ROW_10)
  {
    assert Checked(WTAB, WTAB_ROW_10, 0, 8);
    CheckedAll(WTAB, WTAB_ROW_10, 0, 8);
  }

  lemma {:induction false} WhiteRow11()
    ensures RowChecked(WTAB, WTAB_ROW_11)
  {
    assert Checked(WTAB, WTAB_ROW_11, 0, 8);
    CheckedAll(WTAB, WTAB_ROW_11, 0, 8);
  }

  lemma {:induction false} WhiteRow12()
    ensures RowChecked(WTAB, WTAB_ROW_12)
  {
    assert Checked(WTAB, WTAB_ROW_12, 0, 8);
    CheckedAll(WTAB, WTAB_ROW_12, 0, 8);
  }

  lemma {:induction false} WhiteRows()
    ensures Sorted(WTAB, WTAB_ROWS)
  {
    WhiteRow0();
    WhiteRow1();
    WhiteRow2();
    WhiteRow3();
    WhiteRow4();
    WhiteRow5();
    WhiteRow6();
    WhiteRow7();
    WhiteRow8();
    WhiteRow9();
    WhiteRow10();
    WhiteRow11();
    WhiteRow12();
  }

  lemma {:induction false} BlackRow0()
    ensures RowChecked(BTAB, BTAB_ROW_0)
  {
    assert Checked(BTAB, BTAB_ROW_0, 0, 8);
    CheckedAll(BTAB, BTAB_ROW_0, 0, 8);
  }

  lemma {:induction false} BlackRow1()
    ensures RowChecked(BTAB, BTAB_ROW_1)
  {
    assert Checked(BTAB, BTAB_ROW_1, 0, 8);
    CheckedAll(BTAB, BTAB_ROW_1, 0, 8);
  }

  lemma {:induction false} BlackRow2()
    ensures RowChecked(BTAB, BTAB_ROW_2)
  {
    assert Checked(BTAB, BTAB_ROW_2, 0, 8);
    CheckedAll(BTAB, BTAB_ROW_2, 0, 8);
  }

  lemma {:induction false} BlackRow3()
    ensures RowChecked(BTAB, BTAB_ROW_3)
  {
    assert Checked(BTAB, BTAB_ROW_3, 0, 8);
    CheckedAll(BTAB, BTAB_ROW_3, 0, 8);
  }

  lemma {:induction false} BlackRow4()
    ensures RowChecked(BTAB, BTAB_ROW_4)
  {
    assert Checked(BTAB, BTAB_ROW_4, 0, 8);
    CheckedAll(BTAB, BTAB_ROW_4, 0, 8);
  }

  lemma {:induction false} BlackRow5()
    ensures RowChecked(BTAB, BTAB_ROW_5)
  {
    assert Checked(BTAB, BTAB_ROW_5, 0, 8);
    CheckedAll(BTAB, BTAB_ROW_5, 0, 8);
  }

  lemma {:induction false} BlackRow6()
    ensures RowChecked(BTAB, BTAB_ROW_6)
  {
    assert Checked(BTAB, BTAB_ROW_6, 0, 8);
    CheckedAll(BTAB, BTAB_ROW_6, 0, 8);
  }

  lemma {:induction false} BlackRow7()
    ensures RowChecked(BTAB, BTAB_ROW_7)
  {
    assert Checked(BTAB, BTAB_ROW_7, 0, 8);
    CheckedAll(BTAB, BTAB_ROW_7, 0, 8);
  }

  lemma {:induction false} BlackRow8()
    ensures RowChecked(BTAB, BTAB_ROW_8)
  {
    assert Checked(BTAB, BTAB_ROW_8, 0, 8);
    CheckedAll(BTAB, BTAB_ROW_8, 0, 8);
  }

  lemma {:induction false} BlackRow9()
    ensures RowChecked(BTAB, BTAB_ROW_9)
  {
    assert Checked(BTAB, BTAB_ROW_9, 0, 8);
    CheckedAll(BTAB, BTAB_ROW_9, 0, 8);
  }

  lemma {:induction false} BlackRow10()
    ensures RowChecked(BTAB, BTAB_ROW_10)
  {
    assert Checked(BTAB, BTAB_ROW_10, 0, 8);
    CheckedAll(BTAB, BTAB_ROW_10, 0, 8);
  }

  lemma {:induction false} BlackRow11()
    ensures RowChecked(BTAB, BTAB_ROW_11)
  {
    assert Checked(BTAB, BTAB_ROW_11, 0, 8);
    CheckedAll(BTAB, BTAB_ROW_11, 0, 8);
  }

  lemma {:induction false} BlackRow12()
    ensures RowChecked(BTAB, BTAB_ROW_12)
  {
    assert Checked(BTAB, BTAB_ROW_12, 0, 8);
    CheckedAll(BTAB, BTAB_ROW_12, 0, 8);
  }

  lemma {:induction false} BlackRows()
    ensures Sorted(BTAB, BTAB_ROWS)
  {
    BlackRow0();
    BlackRow1();
    BlackRow2();
    BlackRow3();
    BlackRow4();
    BlackRow5();
    BlackRow6();
    BlackRow7();
    BlackRow8();
    BlackRow9();
    BlackRow10();
    BlackRow11();
    BlackRow12();
  }

  /** Code word n in their order. */
  function Word(rows: seq<seq<T4Code>>, n: nat): T4Code
    requires n < |rows| * ROW && forall r | 0 <= r < |rows| :: |rows[r]| == ROW
  {
    rows[n / ROW][n % ROW]
  }

  lemma {:induction false} WordChecked(t: seq<T4Code>, rows: seq<seq<T4Code>>, n: nat)
    requires Sorted(t, rows) && n < CODES
    ensures var c := Word(rows, n); var k := EntryOf(c.rlen);
      && k < CODES && t[k] == c && GoodCode(c, k)
      && (n + 1 < CODES ==> High(c) <= Low(Word(rows, n + 1)))
  {
    assert RowChecked(t, rows[n / ROW]) && CheckedAt(t, rows[n / ROW], n % ROW);
  }

  /** An earlier code word ends before a later one begins. */
  lemma {:induction false} WordsApart(t: seq<T4Code>, rows: seq<seq<T4Code>>, m: nat, n: nat)
    requires Sorted(t, rows) && m < n < CODES
    ensures High(Word(rows, m)) <= Low(Word(rows, n))
    decreases n - m
  {
    WordChecked(t, rows, n - 1);
    if m < n - 1 {
      WordsApart(t, rows, m, n - 1);
      LowBelowHigh(Word(rows, n - 1));
    }
  }

  predicate AllDistinct(s: seq<nat>)
  {
    forall i, j | 0 <= i < j < |s| :: s[i] != s[j]
  }

  /** There are at most n different numbers below n. */
  lemma {:induction false} AtMost(s: seq<nat>, n: nat)
    requires AllDistinct(s) && forall i | 0 <= i < |s| :: s[i] < n
    ensures |s| <= n
    decreases n
  {
    if s != [] {
      assert s[0] < n;
      if i :| 0 <= i < |s| && s[i] == n - 1 {
        AtMost(s[..i] + s[i + 1..], n - 1);
      } else {
        AtMost(s, n - 1);
      }
    }
  }

  /** The entries of the words in their order. */
  function Entries(rows: seq<seq<T4Code>>, n: nat): (s: seq<nat>)
    requires n <= |rows| * ROW && forall r | 0 <= r < |rows| :: |rows[r]| == ROW
    ensures |s| == n && forall i | 0 <= i < n :: s[i] == EntryOf(Word(rows, i).rlen)
    decreases n
  {
    if n == 0 then [] else Entries(rows, n - 1) + [EntryOf(Word(rows, n - 1).rlen)]
  }

  /** No entry occurs twice among the words. */
  lemma {:induction false} EntriesDiffer(t: seq<T4Code>, rows: seq<seq<T4Code>>)
    requires Sorted(t, rows)
    ensures AllDistinct(Entries(rows, CODES)) && forall i | 0 <= i < CODES :: Entries(rows, CODES)[i] < CODES
  {
    var s := Entries(rows, CODES);
    forall i, j | 0 <= i < j < CODES ensures s[i] != s[j] {
      WordChecked(t, rows, i);
      WordChecked(t, rows, j);
      WordsApart(t, rows, i, j);
      LowBelowHigh(Word(rows, i));
    }
    forall i | 0 <= i < CODES ensures s[i] < CODES { WordChecked(t, rows, i); }
  }

  /** Every entry of the table is one of the words. */
  lemma {:induction false} WordOf(t: seq<T4Code>, rows: seq<seq<T4Code>>, k: nat) returns (n: nat)
    requires Sorted(t, rows) && k < CODES
    ensures n < CODES && EntryOf(Word(rows, n).rlen) == k && t[k] == Word(rows, n)
  {
    var s := Entries(rows, CODES);
    EntriesDiffer(t, rows);
    if forall i | 0 <= i < CODES :: s[i] != k {
      AtMost(s + [k], CODES);
    }
    n :| n < CODES && s[n] == k;
    WordChecked(t, rows, n);
  }

  lemma {:induction false} EntryGood(t: seq<T4Code>, rows: seq<seq<T4Code>>, k: nat)
    requires Sorted(t, rows) && k < CODES
    ensures GoodEntry(t, k)
  {
    var n := WordOf(t, rows, k);
    WordChecked(t, rows, n);
  }

  lemma {:induction false} EntriesApart(t: seq<T4Code>, rows: seq<seq<T4Code>>, j: nat, k: nat)
    requires Sorted(t, rows) && j < k < CODES
    ensures Apart(t, j, k)
  {
    var m := WordOf(t, rows, j);
    var n := WordOf(t, rows, k);
    if m < n { WordsApart(t, rows, m, n); } else { WordsApart(t, rows, n, m); }
  }

  lemma {:induction false} SortedIsDecodable(t: seq<T4Code>, rows: seq<seq<T4Code>>)
    requires Sorted(t, rows) && t[CODES].code == 0
    ensures Decodable(t)
  {
    forall k | 0 <= k < CODES ensures GoodEntry(t, k) { EntryGood(t, rows, k); }
    forall j, k | 0 <= j < k < CODES ensures Apart(t, j, k) { EntriesApart(t, rows, j, k); }
  }

  /** Both tables meet the decoder's conditions; in particular each is prefix-free. */
  lemma {:induction false} T4Sound()
    ensures Sound(T4)
  {
    WhiteRows();
    BlackRows();
    SortedIsDecodable(WTAB, WTAB_ROWS);
    SortedIsDecodable(BTAB, BTAB_ROWS);
  }
}
