/** Sending the pages of a fax through a Class 2 modem: which pages go out, in which order,
    how often, and when the loop ends. */
module PageSending {

  const NTXRETRY := 3

  /** A hang-up report among the modem's responses. */
  datatype Hang = NoHang | Hung(code: nat)

  /** The page transfer status the modem reports. */
  datatype Status = NoStatus | Fpts(value: nat)

  /** What happens in one pass of the loop: whether the page's file opens, and what the modem
      answers to each command. */
  datatype Round = Round(opens: bool, formatHang: Hang, connects: bool, connectHang: Hang, dataOk: bool,
                         dataHang: Hang, postOk: bool, postHang: Hang, status: Status)

  /** The vertical resolution of each page; whether the modem is a Class 2.0 one; whether
      pages are never sent again. */
  datatype Job = Job(pages: seq<nat>, class20: bool, noretry: bool)

  /** The variables of the loop, the pages sent, and the pages taken as accepted. */
  datatype St = St(page: nat, dp: nat, pagetry: nat, vr: nat, good: bool, hsc: int, err: nat, done: bool,
                   sent: seq<nat>, accepted: seq<nat>) {
    predicate Over()
    {
      err != 0 || done
    }
  }

  /** Look for a hang-up report. */
  function GetHsc(st: St, h: Hang): St
  {
    match h
    case NoHang => st
    case Hung(code) => st.(hsc := code, err := if code > 0 && st.err == 0 then 2 else st.err)
  }

  /** Open the page, or the next one. */
  function RdPage(job: Job, st: St, opens: bool): St
  {
    var page := st.page + st.dp;
    if page >= |job.pages| || !opens then st.(page := page, err := 2)
    else st.(page := page, vr := job.pages[page])
  }

  /** The reports made by the end of the page: on the data, or on the post-page message. */
  function LastHang(job: Job, st: St, m: Round): Hang
  {
    if job.class20 then m.dataHang
    else
      var st1 := GetHsc(st, m.dataHang);
      if st1.err == 0 && st1.hsc < 0 then m.postHang else m.dataHang
  }

  /** Send the page's data and learn whether it was accepted. */
  function SendPage(job: Job, st: St, m: Round): St
  {
    var st0 := st.(sent := st.sent + [st.page], pagetry := st.pagetry + 1);
    if job.class20 then st0.(good := m.dataOk || job.noretry)
    else
      var st1 := GetHsc(st0, m.dataHang);
      var st2 := if st1.err == 0 && st1.hsc < 0 && !m.postOk then st1.(err := 3) else st1;
      var st3 := GetHsc(st2, LastHang(job, st0, m));
      var good := if st3.err == 0 && st3.hsc < 0 then (m.status.NoStatus? || m.status.value % 2 == 1) else st3.good;
      st3.(good := good || job.noretry)
  }

  /** Go on to the next page, or send this one again. */
  function Settle(job: Job, st: St, h: Hang): St
  {
    var last := st.page + 1 >= |job.pages|;
    var st1 :=
      if st.good then st.(accepted := st.accepted + [st.page], pagetry := 0, dp := 1, done := last)
      else st.(dp := 0, err := if st.pagetry >= NTXRETRY then 2 else st.err);
    if h.Hung? then GetHsc(st1, h).(done := true) else st1
  }

  /** One pass of the loop. */
  function Step(job: Job, st: St, m: Round): St
  {
    if st.Over() then st
    else
      var st1 := RdPage(job, st, m.opens);
      if st1.err == 0 && st1.vr != st.vr && m.formatHang.Hung? then GetHsc(st1, m.formatHang)
      else if st1.err != 0 then st1.(done := true)
      else if !m.connects then st1.(err := 3, done := true)
      else if m.connectHang.Hung? then GetHsc(st1, m.connectHang).(done := true)
      else
        var h := LastHang(job, st1, m);
        Settle(job, SendPage(job, st1, m), h)
  }

  function Start(vr: nat, good: bool): St
  {
    St(0, 0, 0, vr, good, -1, 0, false, [], [])
  }

  /** The loop after n passes. */
  function Run(job: Job, st: St, modem: nat -> Round, n: nat): St
    decreases n, st
  {
    if n == 0 then st else Step(job, Run(job, st, modem, n - 1), modem(n - 1))
  }

  lemma {:induction false} RunNext(job: Job, start: St, modem: nat -> Round, n: nat, st: St, next: St)
    requires st == Run(job, start, modem, n) && next == Step(job, st, modem(n))
    ensures next == Run(job, start, modem, n + 1)
  {
  }

  // What every pass keeps.

  function Upto(n: nat): (s: seq<nat>)
    ensures |s| == n
  {
    seq(n, i => i)
  }

  /** No page goes out after a later one. */
  predicate Ordered(sent: seq<nat>)
  {
    forall i | 0 < i < |sent| :: sent[i - 1] <= sent[i]
  }

  /** Pages go out in order, none left out. */
  predicate InOrder(sent: seq<nat>)
  {
    && (sent != [] ==> sent[0] == 0)
    && forall i | 0 < i < |sent| :: sent[i - 1] <= sent[i] <= sent[i - 1] + 1
  }

  /** No page goes out more than NTXRETRY times in a row. */
  predicate FewTries(sent: seq<nat>)
  {
    forall i | NTXRETRY <= i < |sent| :: sent[i - NTXRETRY] < sent[i]
  }

  /** The page was sent pagetry times at the end, and only lower ones before. */
  predicate Tried(sent: seq<nat>, page: nat, pagetry: nat)
  {
    && pagetry <= |sent|
    && (forall i | |sent| - pagetry <= i < |sent| :: sent[i] == page)
    && (pagetry < |sent| ==> sent[|sent| - pagetry - 1] < page)
  }

  /** Pages have been passed over since the last one was sent. */
  predicate Gap(st: St)
  {
    st.sent != [] && st.sent[|st.sent| - 1] < st.page
  }

  /** The page to be sent next has been tried pagetry times; only a page that is to be left
      behind can have been passed over. */
  predicate Counted(st: St)
  {
    && st.pagetry < NTXRETRY && Tried(st.sent, st.page + st.dp, st.pagetry)
    && (if st.sent == [] then st.page == 0 && st.dp == 0 else st.sent[|st.sent| - 1] <= st.page)
    && (Gap(st) ==> st.dp == 1)
  }

  /** As long as nobody has hung up: the pages before the current one are accepted, and none
      is passed over. */
  predicate Underway(job: Job, st: St)
  {
    && st.page + st.dp <= |job.pages|
    && st.accepted == Upto(st.page + st.dp)
    && !Gap(st)
    && (st.done ==> st.page + st.dp == |job.pages|)
  }

  predicate Invariant(job: Job, st: St)
  {
    && Ordered(st.sent) && FewTries(st.sent) && st.dp <= 1
    && (!st.Over() ==> Counted(st))
    && (st.err == 0 && st.hsc < 0 ==> Underway(job, st))
  }

  lemma {:induction false} StartInvariant(job: Job, vr: nat, good: bool)
    requires job.pages != []
    ensures Invariant(job, Start(vr, good))
  {
  }

  /** Pages sent earlier do not come after pages sent later. */
  lemma {:induction false} LowerBefore(sent: seq<nat>, i: nat, j: nat)
    requires Ordered(sent) && i <= j < |sent|
    ensures sent[i] <= sent[j]
    decreases j
  {
    if i < j { LowerBefore(sent, i, j - 1); }
  }

  lemma {:induction false} SentFewTimes(sent: seq<nat>, page: nat, pagetry: nat)
    requires Ordered(sent) && FewTries(sent) && Tried(sent, page, pagetry) && pagetry < NTXRETRY
    ensures FewTries(sent + [page])
  {
    if |sent| >= NTXRETRY { LowerBefore(sent, |sent| - NTXRETRY, |sent| - pagetry - 1); }
  }

  lemma {:induction false} TriedOnceMore(sent: seq<nat>, page: nat, pagetry: nat)
    requires Tried(sent, page, pagetry)
    ensures Tried(sent + [page], page, pagetry + 1)
  {
  }

  /** One more page keeps the order exactly when it is the last one again or the next. */
  lemma {:induction false} SentInOrder(sent: seq<nat>, page: nat)
    ensures InOrder(sent + [page]) <==>
      InOrder(sent) && if sent == [] then page == 0 else sent[|sent| - 1] <= page <= sent[|sent| - 1] + 1
  {
    var r := sent + [page];
    assert forall i | 0 <= i < |sent| :: r[i] == sent[i];
    assert r[|sent|] == page;
    if InOrder(r) && sent != [] { assert r[|sent| - 1] <= r[|sent|] <= r[|sent| - 1] + 1; }
  }

  lemma {:induction false} SentOrdered(sent: seq<nat>, page: nat)
    requires Ordered(sent) && (sent != [] ==> sent[|sent| - 1] <= page)
    ensures Ordered(sent + [page])
  {
  }

  /** What the page's outcome does to the pages sent. */
  lemma {:induction false} SendPageSends(job: Job, st: St, m: Round)
    ensures var r := SendPage(job, st, m);
      && r.sent == st.sent + [st.page] && r.pagetry == st.pagetry + 1
      && r.page == st.page && r.accepted == st.accepted && r.done == st.done
      && (r.err == 0 ==> st.err == 0) && (r.hsc < 0 ==> st.hsc < 0)
  {
  }

  /** The page's data go out in this pass. */
  predicate Sends(job: Job, st: St, m: Round)
  {
    var st1 := RdPage(job, st, m.opens);
    !st.Over() && st1.err == 0 && m.connects && !(st1.vr != st.vr && m.formatHang.Hung?) && !m.connectHang.Hung?
  }

  /** The page's resolution differs from that of the one before, and when the modem is told, it
      reports a hang-up without an error code: the loop goes on to the page after it. */
  predicate Skips(job: Job, st: St, m: Round)
  {
    var st1 := RdPage(job, st, m.opens);
    !st.Over() && st.dp == 1 && st1.err == 0 && st1.vr != st.vr && m.formatHang == Hung(0)
  }

  /** Settling an outcome of the current page. */
  lemma {:induction false} SettleKeeps(job: Job, st: St, h: Hang)
    requires st.page < |job.pages| && !st.done && 0 < st.pagetry <= NTXRETRY && Tried(st.sent, st.page, st.pagetry)
    ensures var r := Settle(job, st, h);
      && r.sent == st.sent && r.page == st.page && r.dp <= 1 && !Gap(r)
      && (!r.Over() ==> Counted(r))
      && (r.err == 0 && r.hsc < 0 && st.accepted == Upto(st.page) ==> Underway(job, r))
      && (r.hsc < 0 ==> st.hsc < 0)
  {
    assert Upto(st.page) + [st.page] == Upto(st.page + 1);
    assert st.sent[|st.sent| - 1] == st.page;
  }

  /** Sending the current page once more keeps the order and the number of tries. */
  lemma {:induction false} SentOnce(sent: seq<nat>, page: nat, pagetry: nat)
    requires Ordered(sent) && FewTries(sent) && Tried(sent, page, pagetry) && pagetry < NTXRETRY
    requires sent != [] ==> sent[|sent| - 1] <= page
    ensures var r := sent + [page]; Ordered(r) && FewTries(r) && Tried(r, page, pagetry + 1)
  {
    SentOrdered(sent, page);
    SentFewTimes(sent, page, pagetry);
    TriedOnceMore(sent, page, pagetry);
  }

  lemma {:induction false} SendKeeps(job: Job, st: St, m: Round)
    requires Invariant(job, st) && Sends(job, st, m)
    ensures Invariant(job, Step(job, st, m))
  {
    var st1 := RdPage(job, st, m.opens);
    SentOnce(st.sent, st1.page, st.pagetry);
    Sent(job, st1, m);
  }

  /** What is known after the current page has been sent. */
  lemma {:induction false} Sent(job: Job, st: St, m: Round)
    requires st.page < |job.pages| && !st.done && st.pagetry < NTXRETRY
        && Tried(st.sent + [st.page], st.page, st.pagetry + 1)
    ensures var r := Settle(job, SendPage(job, st, m), LastHang(job, st, m));
      && r.sent == st.sent + [st.page] && r.dp <= 1 && !Gap(r)
      && (!r.Over() ==> Counted(r))
      && (r.hsc < 0 ==> st.hsc < 0) && (r.err == 0 && r.hsc < 0 && st.accepted == Upto(st.page) ==> Underway(job, r))
  {
    SendPageSends(job, st, m);
    SettleKeeps(job, SendPage(job, st, m), LastHang(job, st, m));
  }

  /** A pass that sends nothing ends the loop or sees a hang-up. */
  lemma {:induction false} NoSend(job: Job, st: St, m: Round)
    requires !st.Over() && !Sends(job, st, m)
    ensures var r := Step(job, st, m);
      && r.sent == st.sent && r.accepted == st.accepted && r.dp == st.dp && r.pagetry == st.pagetry
      && (r.err != 0 || r.hsc >= 0)
      && (!r.Over() ==> r.page == st.page + st.dp && (st.dp == 1 <==> Skips(job, st, m)))
  {
  }

  /** No pass breaks the order or tries a page once too often, whatever the modem answers. */
  lemma {:induction false} StepKeeps(job: Job, st: St, m: Round)
    requires Invariant(job, st)
    ensures Invariant(job, Step(job, st, m))
  {
    if Sends(job, st, m) {
      SendKeeps(job, st, m);
    } else if !st.Over() {
      NoSend(job, st, m);
    }
  }

  // Whole runs.

  lemma {:induction false} RunKeeps(job: Job, vr: nat, good: bool, modem: nat -> Round, n: nat)
    requires job.pages != []
    ensures Invariant(job, Run(job, Start(vr, good), modem, n))
  {
    if n == 0 {
      StartInvariant(job, vr, good);
    } else {
      RunKeeps(job, vr, good, modem, n - 1);
      StepKeeps(job, Run(job, Start(vr, good), modem, n - 1), modem(n - 1));
    }
  }

  predicate SendsIn(job: Job, vr: nat, good: bool, modem: nat -> Round, i: nat)
  {
    Sends(job, Run(job, Start(vr, good), modem, i), modem(i))
  }

  predicate SkipsIn(job: Job, vr: nat, good: bool, modem: nat -> Round, i: nat)
  {
    Skips(job, Run(job, Start(vr, good), modem, i), modem(i))
  }

  /** One of the first n passes goes past a page. */
  predicate SkipsBefore(job: Job, vr: nat, good: bool, modem: nat -> Round, n: nat)
    decreases n, vr
  {
    n > 0 && (SkipsIn(job, vr, good, modem, n - 1) || SkipsBefore(job, vr, good, modem, n - 1))
  }

  /** One of the first n passes sends a page after an earlier one went past a page. */
  predicate Skipped(job: Job, vr: nat, good: bool, modem: nat -> Round, n: nat)
    decreases n, vr
  {
    n > 0 && ((SendsIn(job, vr, good, modem, n - 1) && SkipsBefore(job, vr, good, modem, n - 1))
              || Skipped(job, vr, good, modem, n - 1))
  }

  lemma {:induction false} SkipsAt(job: Job, vr: nat, good: bool, modem: nat -> Round, n: nat) returns (i: nat)
    requires SkipsBefore(job, vr, good, modem, n)
    ensures i < n && SkipsIn(job, vr, good, modem, i)
  {
    if SkipsIn(job, vr, good, modem, n - 1) { i := n - 1; } else { i := SkipsAt(job, vr, good, modem, n - 1); }
  }

  lemma {:induction false} SkipsBy(job: Job, vr: nat, good: bool, modem: nat -> Round, n: nat, i: nat)
    requires i < n && SkipsIn(job, vr, good, modem, i)
    ensures SkipsBefore(job, vr, good, modem, n)
  {
    SkipsNow(job, vr, good, modem, i);
    SkipsLater(job, vr, good, modem, i + 1, n);
  }

  lemma {:induction false} SkipsLater(job: Job, vr: nat, good: bool, modem: nat -> Round, m: nat, n: nat)
    requires SkipsBefore(job, vr, good, modem, m) && m <= n
    ensures SkipsBefore(job, vr, good, modem, n)
    decreases n
  {
    if m < n { SkipsLater(job, vr, good, modem, m, n - 1); }
  }

  lemma {:induction false} SkipsNow(job: Job, vr: nat, good: bool, modem: nat -> Round, n: nat)
    requires SkipsIn(job, vr, good, modem, n)
    ensures SkipsBefore(job, vr, good, modem, n + 1)
  {
  }

  /** If pages were skipped, one pass went past a page and a later one sent a page. */
  lemma {:induction false} SkippedAt(job: Job, vr: nat, good: bool, modem: nat -> Round, n: nat)
      returns (i: nat, j: nat)
    requires Skipped(job, vr, good, modem, n)
    ensures i < j < n && SkipsIn(job, vr, good, modem, i) && SendsIn(job, vr, good, modem, j)
  {
    if SendsIn(job, vr, good, modem, n - 1) && SkipsBefore(job, vr, good, modem, n - 1) {
      j := n - 1;
      i := SkipsAt(job, vr, good, modem, j);
    } else {
      i, j := SkippedAt(job, vr, good, modem, n - 1);
    }
  }

  /** If one pass goes past a page and a later one sends a page, pages are skipped. */
  lemma {:induction false} SkippedBy(job: Job, vr: nat, good: bool, modem: nat -> Round, n: nat, i: nat, j: nat)
    requires i < j < n && SkipsIn(job, vr, good, modem, i) && SendsIn(job, vr, good, modem, j)
    ensures Skipped(job, vr, good, modem, n)
  {
    SkipsBy(job, vr, good, modem, j, i);
    SkippedNow(job, vr, good, modem, j);
    SkippedLater(job, vr, good, modem, j + 1, n);
  }

  lemma {:induction false} SkippedLater(job: Job, vr: nat, good: bool, modem: nat -> Round, m: nat, n: nat)
    requires Skipped(job, vr, good, modem, m) && m <= n
    ensures Skipped(job, vr, good, modem, n)
    decreases n
  {
    if m < n { SkippedLater(job, vr, good, modem, m, n - 1); }
  }

  lemma {:induction false} SkippedNow(job: Job, vr: nat, good: bool, modem: nat -> Round, n: nat)
    requires SendsIn(job, vr, good, modem, n) && SkipsBefore(job, vr, good, modem, n)
    ensures Skipped(job, vr, good, modem, n + 1)
  {
  }

  /** What a pass does to the pages sent and to the pages passed over. */
  lemma {:induction false} StepGap(job: Job, st: St, m: Round)
    requires Invariant(job, st)
    ensures var r := Step(job, st, m);
      && (InOrder(r.sent) <==> InOrder(st.sent) && !(Sends(job, st, m) && Gap(st)))
      && (!r.Over() ==> (Gap(r) <==> Skips(job, st, m) || (Gap(st) && !Sends(job, st, m))))
  {
    if Sends(job, st, m) {
      SendGap(job, st, m);
    } else if !st.Over() {
      NoSend(job, st, m);
    }
  }

  lemma {:induction false} SendGap(job: Job, st: St, m: Round)
    requires Invariant(job, st) && Sends(job, st, m)
    ensures var r := Step(job, st, m); (InOrder(r.sent) <==> InOrder(st.sent) && !Gap(st)) && !Gap(r)
  {
    var st1 := RdPage(job, st, m.opens);
    SentInOrder(st.sent, st1.page);
    TriedOnceMore(st.sent, st1.page, st.pagetry);
    Sent(job, st1, m);
  }

  /** How the pages left out and passed over show in the state after n passes. */
  predicate Shown(job: Job, vr: nat, good: bool, modem: nat -> Round, n: nat, st: St)
  {
    && (InOrder(st.sent) <==> !Skipped(job, vr, good, modem, n))
    && (!st.Over() && Gap(st) ==> SkipsBefore(job, vr, good, modem, n))
    && (!st.Over() && SkipsBefore(job, vr, good, modem, n) ==> Gap(st) || Skipped(job, vr, good, modem, n))
  }

  lemma {:induction false} ShownNext(job: Job, vr: nat, good: bool, modem: nat -> Round, n: nat, st: St)
    requires st == Run(job, Start(vr, good), modem, n) && Shown(job, vr, good, modem, n, st) && Invariant(job, st)
    ensures Shown(job, vr, good, modem, n + 1, Step(job, st, modem(n)))
  {
    StepGap(job, st, modem(n));
  }

  /** Pages are left out exactly when one is sent after another has been passed over. */
  lemma {:induction false} LeftOut(job: Job, vr: nat, good: bool, modem: nat -> Round, n: nat)
    requires job.pages != []
    ensures Shown(job, vr, good, modem, n, Run(job, Start(vr, good), modem, n))
  {
    if n > 0 {
      LeftOut(job, vr, good, modem, n - 1);
      RunKeeps(job, vr, good, modem, n - 1);
      ShownNext(job, vr, good, modem, n - 1, Run(job, Start(vr, good), modem, n - 1));
    }
  }

  // What the modem says of a page.

  /** The answer that stands for a page received well: with Class 2.0 the response to the end
      of the data, otherwise an odd page transfer status or none. */
  predicate SaidGood(job: Job, m: Round)
  {
    if job.class20 then m.dataOk else match m.status case NoStatus => true case Fpts(value) => value % 2 == 1
  }

  /** The pass sees a hang-up at the end of the page, or its post-page message fails. */
  predicate Disturbed(job: Job, st: St, m: Round)
  {
    m.dataHang.Hung? || (!job.class20 && st.hsc < 0 && (!m.postOk || m.postHang.Hung?))
  }

  /** The page sent in this pass counts as accepted. Once the modem has hung up its answer is
      not looked at any more, and what was said of the page before counts. */
  predicate Taken(job: Job, st: St, m: Round)
  {
    job.noretry || if job.class20 || (st.hsc < 0 && !Disturbed(job, st, m)) then SaidGood(job, m) else st.good
  }

  /** The page that a pass sends. */
  function PageOf(st: St): nat
  {
    st.page + st.dp
  }

  /** A page sent is added to the accepted ones exactly when it counts as accepted; otherwise
      it is to be sent again, and the loop ends exactly at the third try or when the pass was
      disturbed. */
  lemma {:induction false} Verdict(job: Job, st: St, m: Round)
    requires Sends(job, st, m)
    ensures var r := Step(job, st, m);
      && r.sent == st.sent + [PageOf(st)] && r.page == PageOf(st)
      && r.accepted == st.accepted + (if Taken(job, st, m) then [PageOf(st)] else [])
      && (!Taken(job, st, m) ==> r.dp == 0 && r.pagetry == st.pagetry + 1
                                 && (r.Over() <==> st.pagetry + 1 >= 3 || Disturbed(job, st, m)))
      && (Disturbed(job, st, m) ==> r.err != 0 || r.hsc >= 0)
  {
    assert st.accepted + [] == st.accepted;
  }

  /** After a page that did not count as accepted, the next pass sends the same page or ends
      the loop. */
  lemma {:induction false} SentAgain(job: Job, st: St, m: Round, next: Round)
    requires Sends(job, st, m) && !Taken(job, st, m) && !Step(job, st, m).Over()
    ensures var r := Step(job, st, m); var q := Step(job, r, next);
      if Sends(job, r, next) then q.sent == st.sent + [PageOf(st), PageOf(st)] else q.Over() && q.sent == r.sent
  {
    var r := Step(job, st, m);
    Verdict(job, st, m);
    assert job.pages[r.page] == r.vr;
    if Sends(job, r, next) {
      Verdict(job, r, next);
      assert st.sent + [PageOf(st)] + [PageOf(st)] == st.sent + [PageOf(st), PageOf(st)];
    }
  }

  /** Pass i sends page p, and the modem says that it was received well, or that does not matter. */
  predicate Vouched(job: Job, vr: nat, good: bool, modem: nat -> Round, i: nat, p: nat)
  {
    && SendsIn(job, vr, good, modem, i) && PageOf(Run(job, Start(vr, good), modem, i)) == p
    && (job.noretry || SaidGood(job, modem(i)))
  }

  /** Nobody has hung up, and there was no error. */
  predicate Calm(st: St)
  {
    st.err == 0 && st.hsc < 0
  }

  lemma {:induction false} CalmBefore(job: Job, st: St, m: Round)
    requires Calm(Step(job, st, m))
    ensures Calm(st)
  {
  }

  /** One of the first n passes vouches for page p. */
  predicate VouchedBefore(job: Job, vr: nat, good: bool, modem: nat -> Round, n: nat, p: nat)
    decreases n, vr
  {
    n > 0 && (Vouched(job, vr, good, modem, n - 1, p) || VouchedBefore(job, vr, good, modem, n - 1, p))
  }

  lemma {:induction false} VouchedAt(job: Job, vr: nat, good: bool, modem: nat -> Round, n: nat, p: nat)
      returns (i: nat)
    requires VouchedBefore(job, vr, good, modem, n, p)
    ensures i < n && Vouched(job, vr, good, modem, i, p)
  {
    if Vouched(job, vr, good, modem, n - 1, p) { i := n - 1; } else { i := VouchedAt(job, vr, good, modem, n - 1, p); }
  }

  /** As long as nobody has hung up, each page accepted has a pass that sent it and after which
      the modem said that it was received well. */
  lemma {:induction false} AcceptedBy(job: Job, vr: nat, good: bool, modem: nat -> Round, n: nat, k: nat)
    requires Calm(Run(job, Start(vr, good), modem, n)) && k < |Run(job, Start(vr, good), modem, n).accepted|
    ensures VouchedBefore(job, vr, good, modem, n, Run(job, Start(vr, good), modem, n).accepted[k])
  {
    var st, m := Run(job, Start(vr, good), modem, n - 1), modem(n - 1);
    CalmBefore(job, st, m);
    if Sends(job, st, m) {
      Verdict(job, st, m);
    } else if !st.Over() {
      NoSend(job, st, m);
    }
    if k < |st.accepted| { AcceptedBy(job, vr, good, modem, n - 1, k); }
  }

  /** Each of the first pages has been vouched for in one of the first n passes. */
  predicate AllVouched(job: Job, vr: nat, good: bool, modem: nat -> Round, n: nat, pages: nat)
  {
    forall p: nat | p < pages :: VouchedBefore(job, vr, good, modem, n, p)
  }

  lemma {:induction false} RunVouched(job: Job, vr: nat, good: bool, modem: nat -> Round, n: nat, pages: nat)
    requires Calm(Run(job, Start(vr, good), modem, n)) && Run(job, Start(vr, good), modem, n).accepted == Upto(pages)
    ensures AllVouched(job, vr, good, modem, n, pages)
  {
    forall p: nat | p < pages ensures VouchedBefore(job, vr, good, modem, n, p) {
      AcceptedBy(job, vr, good, modem, n, p);
    }
  }

  /** What can be said of every run, whatever the modem answers. */
  predicate Delivered(job: Job, vr: nat, good: bool, modem: nat -> Round, n: nat)
  {
    var st := Run(job, Start(vr, good), modem, n);
    && Ordered(st.sent) && FewTries(st.sent)
    && (InOrder(st.sent) <==> !Skipped(job, vr, good, modem, n))
    && (st.done && Calm(st) ==> st.accepted == Upto(|job.pages|)
                                && AllVouched(job, vr, good, modem, n, |job.pages|))
  }

  /** In every run no page goes out after a later one, and none more than three times in a row;
      no page is left out, unless one is sent after a hang-up report made the loop pass another
      one over, and then one is; and a run that ends without error and without a hang-up has
      had every page accepted exactly once, each after the modem said that it was received well. */
  lemma {:induction false} EveryRun(job: Job, vr: nat, good: bool, modem: nat -> Round, n: nat)
    requires job.pages != []
    ensures Delivered(job, vr, good, modem, n)
  {
    RunKeeps(job, vr, good, modem, n);
    LeftOut(job, vr, good, modem, n);
    var st := Run(job, Start(vr, good), modem, n);
    if st.done && Calm(st) { RunVouched(job, vr, good, modem, n, |job.pages|); }
  }

  // Termination.

  /** Pages to come, tries left, and whether the modem still has to be told the resolution. */
  function Left(job: Job, st: St): (int, int, int)
  {
    (|job.pages| - st.page - st.dp, NTXRETRY - st.pagetry,
     if st.page < |job.pages| && job.pages[st.page] != st.vr then 1 else 0)
  }

  predicate Less(a: (int, int, int), b: (int, int, int))
  {
    a.0 < b.0 || (a.0 == b.0 && (a.1 < b.1 || (a.1 == b.1 && a.2 < b.2)))
  }

  /** Every pass ends the loop or brings it nearer to its end. */
  lemma {:induction false} StepProgress(job: Job, st: St, m: Round)
    requires !st.Over() && st.dp <= 1 && st.pagetry < NTXRETRY
    ensures var r := Step(job, st, m);
      r.Over() || (Less(Left(job, r), Left(job, st)) && r.page + r.dp <= |job.pages| && r.dp <= 1
                   && r.pagetry < NTXRETRY)
  {
    var st1 := RdPage(job, st, m.opens);
    if Sends(job, st, m) {
      SendPageSends(job, st1, m);
    }
  }

  /** The same measure as one number. */
  function Weight(job: Job, st: St): int
  {
    var left := Left(job, st);
    8 * left.0 + 2 * left.1 + left.2
  }

  lemma {:induction false} StepLighter(job: Job, st: St, m: Round)
    requires !st.Over() && st.dp <= 1 && st.pagetry < NTXRETRY
    ensures var r := Step(job, st, m); r.Over() || Weight(job, r) < Weight(job, st)
  {
    StepProgress(job, st, m);
  }

  /** After n passes the loop has ended or is n nearer to its end. */
  lemma {:induction false} RunLighter(job: Job, vr: nat, good: bool, modem: nat -> Round, n: nat)
    requires job.pages != []
    ensures var st := Run(job, Start(vr, good), modem, n);
      st.Over()
          || (Weight(job, st) <= 8 * |job.pages| + 7 - n && st.page + st.dp <= |job.pages| && st.dp <= 1
              && st.pagetry < NTXRETRY)
  {
    if n > 0 {
      RunLighter(job, vr, good, modem, n - 1);
      var st := Run(job, Start(vr, good), modem, n - 1);
      if !st.Over() {
        StepProgress(job, st, modem(n - 1));
        StepLighter(job, st, modem(n - 1));
      }
    }
  }

  lemma {:induction false} PassesLeft(job: Job, vr: nat, good: bool, modem: nat -> Round, n: nat)
    requires job.pages != [] && !Run(job, Start(vr, good), modem, n).Over()
    ensures n < 8 * |job.pages| + 8
  {
    RunLighter(job, vr, good, modem, n);
  }

  /** Whatever the modem answers, the loop ends after at most eight passes a page and eight more. */
  lemma {:induction false} RunEnds(job: Job, vr: nat, good: bool, modem: nat -> Round)
    requires job.pages != []
    ensures Run(job, Start(vr, good), modem, 8 * |job.pages| + 8).Over()
  {
    RunLighter(job, vr, good, modem, 8 * |job.pages| + 8);
  }

  const ACCEPT := Round(true, NoHang, true, NoHang, true, NoHang, true, NoHang, Fpts(1))

  /** A modem that accepts everything but reports a hang-up, without an error code, in pass 1. */
  function Careless(i: nat): Round
  {
    if i == 1 then ACCEPT.(formatHang := Hung(0)) else ACCEPT
  }

  lemma {:induction false} AcceptedPass(job: Job, st: St)
    requires !st.Over() && (st.hsc < 0 || st.good) && st.page + st.dp < |job.pages|
    ensures var r := Step(job, st, ACCEPT);
      && r.page == st.page + st.dp && r.dp == 1 && r.sent == st.sent + [r.page] && r.vr == job.pages[r.page]
      && r.err == 0 && r.good && r.hsc == st.hsc && r.done == (r.page + 1 >= |job.pages|)
      && r.accepted == st.accepted + [r.page]
  {
  }

  lemma {:induction false} HangupPass(job: Job, st: St)
    requires !st.Over() && st.page + st.dp < |job.pages| && st.vr != job.pages[st.page + st.dp]
    ensures var page := st.page + st.dp;
      Step(job, st, ACCEPT.(formatHang := Hung(0))) == st.(page := page, vr := job.pages[page], hsc := 0)
  {
  }

  /** If the modem connects after reporting a hang-up without an error code, a page can be
      left out although the fax ends without error. */
  lemma {:induction false} SkipsAfterHangup(job: Job, good: bool)
    requires job.pages == [0, 1, 1]
    ensures var st := Run(job, Start(0, good), Careless, 3);
      st.done && st.err == 0 && st.sent == [0, 2] && Skipped(job, 0, good, Careless, 3)
  {
    var st0 := Run(job, Start(0, good), Careless, 0);
    var st1 := Run(job, Start(0, good), Careless, 1);
    var st2 := Run(job, Start(0, good), Careless, 2);
    AcceptedPass(job, st0);
    HangupPass(job, st1);
    AcceptedPass(job, st2);
    assert [0] + [2] == [0, 2];
    assert !InOrder([0, 2]) by { assert [0, 2][0] == 0 && [0, 2][1] == 2; }
    LeftOut(job, 0, good, Careless, 3);
  }

  /** A modem that accepts page 0 and hangs up, without an error code, at the end of page 1. */
  function Cut(i: nat): Round
  {
    if i == 1 then ACCEPT.(dataHang := Hung(0)) else ACCEPT
  }

  lemma {:induction false} CutPass(job: Job, st: St)
    requires !st.Over() && st.good && !job.class20 && PageOf(st) < |job.pages| && st.vr == job.pages[PageOf(st)]
    ensures var r := Step(job, st, Cut(1)); r.done && r.err == 0 && r.accepted == st.accepted + [PageOf(st)]
  {
  }

  /** A page at the end of which the modem hangs up counts as accepted because the page before
      was, although the modem never says so. */
  lemma {:induction false} AcceptedUnheard(job: Job, good: bool)
    requires job.pages == [0, 0] && !job.class20
    ensures var st := Run(job, Start(0, good), Cut, 2); st.done && st.err == 0 && st.accepted == [0, 1]
  {
    hide Step, Sends, Taken;
    var st0, st1 := Run(job, Start(0, good), Cut, 0), Run(job, Start(0, good), Cut, 1);
    AcceptedPass(job, st0);
    CutPass(job, st1);
    assert [] + [0] == [0] && [0] + [1] == [0, 1];
  }

  /** The send loop's variables. */
  class SendLoop {
    const job: Job
    var page: nat
    var dp: nat
    var pagetry: nat
    var vr: nat
    var good: bool
    var hsc: int
    var err: nat
    var done: bool
    var sent: seq<nat>
    var accepted: seq<nat>

    ghost function State(): St
      reads this
    {
      St(page, dp, pagetry, vr, good, hsc, err, done, sent, accepted)
    }

    constructor (job: Job, vr: nat, good: bool)
      ensures this.job == job && State() == Start(vr, good)
    {
      this.job := job;
      page, dp, pagetry, this.vr, this.good := 0, 0, 0, vr, good;
      hsc, err, done, sent, accepted := -1, 0, false, [], [];
    }

    /** Look for a hang-up report; is there one? */
    method LookForHangup(h: Hang) returns (found: bool)
      modifies this`hsc, this`err
      ensures found == h.Hung? && State() == GetHsc(old(State()), h)
    {
      found := h.Hung?;
      if found {
        hsc := h.code;
        if hsc > 0 && err == 0 {
          err := 2;
        }
      }
    }

    method ReadPage(opens: bool) returns (changed: bool)
      modifies this`page, this`vr, this`err
      ensures State() == RdPage(job, old(State()), opens)
      ensures err == 0 ==> changed == (vr != old(vr))
      requires err == 0
    {
      changed := false;
      page := page + dp;
      if page >= |job.pages| || !opens {
        err := 2;
      } else {
        changed := vr != job.pages[page];
        vr := job.pages[page];
      }
    }

    /** Send the page's data and the post-page message. */
    method Transfer(m: Round) returns (last: Hang)
      requires err == 0
      modifies this`sent, this`pagetry, this`good, this`hsc, this`err
      ensures State() == SendPage(job, old(State()), m) && last == LastHang(job, old(State()), m)
    {
      sent := sent + [page];
      pagetry := pagetry + 1;
      last := m.dataHang;
      if job.class20 {
        good := m.dataOk;
      } else {
        var _ := LookForHangup(m.dataHang);
        if err == 0 && hsc < 0 {
          last := m.postHang;
          if !m.postOk {
            err := 3;
          }
        }
        var _ := LookForHangup(last);
        if err == 0 && hsc < 0 {
          good := m.status.NoStatus? || m.status.value % 2 == 1;
        }
      }
      if job.noretry {
        good := true;
      }
    }

    /** Take the page as accepted, or have it sent again. */
    method Conclude(last: Hang)
      requires page < |job.pages| && !done
      modifies this
      ensures State() == Settle(job, old(State()), last)
    {
      if good {
        accepted := accepted + [page];
        pagetry, dp := 0, 1;
        if page + 1 >= |job.pages| {
          done := true;
        }
      } else {
        dp := 0;
        if pagetry >= NTXRETRY {
          err := 2;
        }
      }
      var found := LookForHangup(last);
      if found {
        done := true;
      }
    }

    /** One pass of the loop. */
    method Pass(m: Round)
      requires err == 0 && !done
      modifies this
      ensures State() == Step(job, old(State()), m)
    {
      var changed := ReadPage(m.opens);
      if err == 0 && changed {
        var found := LookForHangup(m.formatHang);
        if found {
          return;
        }
      }
      if err == 0 && !m.connects {
        err := 3;
      }
      if err != 0 {
        done := true;
        return;
      }
      var found := LookForHangup(m.connectHang);
      if found {
        done := true;
        return;
      }
      var last := Transfer(m);
      Conclude(last);
    }

    /** Go round the loop until it ends. */
    method Repeat(modem: nat -> Round) returns (ghost n: nat)
      requires job.pages != [] && State() == Start(vr, good)
      modifies this
      ensures State() == Run(job, old(State()), modem, n) && State().Over()
    {
      ghost var start, vr0, good0 := State(), vr, good;
      n := 0;
      var i := 0;
      while err == 0 && !done
        invariant i == n && State() == Run(job, start, modem, n)
        decreases 8 * |job.pages| + 8 - n
      {
        PassesLeft(job, vr0, good0, modem, n);
        ghost var st := State();
        Pass(modem(i));
        RunNext(job, start, modem, n, st, State());
        i, n := i + 1, n + 1;
      }
    }

    /** Send all pages. */
    method SendAll(modem: nat -> Round) returns (ghost n: nat)
      requires job.pages != [] && State() == Start(vr, good)
      modifies this
      ensures State() == Run(job, old(State()), modem, n) && State().Over()
      ensures Delivered(job, old(vr), old(good), modem, n)
    {
      ghost var vr0, good0 := vr, good;
      n := Repeat(modem);
      EveryRun(job, vr0, good0, modem, n);
    }
  }
}
