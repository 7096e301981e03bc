/** Training a Class 1 modem: the sender proposes a speed and lowers it until the receiver
    confirms that the channel is usable. */
module Training {

  /** Speeds 0 to 7, as capability codes. */
  type rate = r: int | 0 <= r < 8

  /** The speed to try when one fails, or -1. */
  const FALLBACK: seq<int> := [-1, 0, 1, 2, 7, 4, 3, 6]

  /** Negotiation order of the speeds. */
  const BRINDEX: seq<nat> := [0, 1, 2, 3, 4, 7, 5, 6]

  const MAXTRY := 3

  /** The receiver's answer to a training sequence: none or an error, new capabilities,
      failure to train, confirmation to receive, or something else. */
  datatype Answer = Silent | Capabilities(speed: rate) | Failed | Confirmed | Other

  datatype Outcome = Pending | TimedOut | NoChannel | Trained(speed: rate) | Invalid

  datatype St = St(tries: nat, remote: rate, outcome: Outcome)

  /** The lower of two speeds, by negotiation order. */
  function MinRate(local: rate, remote: rate): rate
  {
    if BRINDEX[remote] < BRINDEX[local] then remote else local
  }

  /** Propose a speed and act on the answer. */
  function Pass(local: rate, st: St, answer: Answer): St
  {
    if st.outcome != Pending then st
    else
      var session := MinRate(local, st.remote);
      var tries := st.tries + 1;
      match answer
      case Silent => st.(tries := tries, outcome := if tries >= MAXTRY then TimedOut else Pending)
      case Capabilities(speed) =>
        if tries >= MAXTRY then st.(tries := tries, outcome := TimedOut) else St(tries, speed, Pending)
      case Failed =>
        if FALLBACK[session] >= 0 then St(tries, FALLBACK[session], Pending)
        else st.(tries := tries, outcome := NoChannel)
      case Confirmed => st.(tries := tries, outcome := Trained(session))
      case Other => st.(tries := tries, outcome := Invalid)
  }

  /** n passes. */
  function Run(local: rate, st: St, answers: nat -> Answer, n: nat): St
    decreases n, st
  {
    if n == 0 then st else Pass(local, Run(local, st, answers, n - 1), answers(n - 1))
  }

  function Start(remote: rate): St
  {
    St(0, remote, Pending)
  }

  /** The place of a speed on the way down: 5, 4, 7, 6, 3, 2, 1, 0. */
  function Rank(r: rate): nat
  {
    match r
    case 5 => 7
    case 4 => 6
    case 7 => 5
    case 6 => 4
    case _ => r
  }

  /** With any local speed but 4, a failure lowers the speed that is tried next. */
  lemma {:induction false} FailureDescends(local: rate, remote: rate)
    requires local != 4
    ensures var session := MinRate(local, remote);
      FALLBACK[session] >= 0 ==> Rank(MinRate(local, FALLBACK[session])) < Rank(session)
  {
  }

  /** How many more passes there can be. */
  function PassesLeft(local: rate, st: St): nat
  {
    if st.outcome != Pending then 0
    else if st.tries < 2 then 10 - st.tries
    else Rank(MinRate(local, st.remote)) + 1
  }

  lemma {:induction false} PassShortens(local: rate, st: St, answer: Answer)
    requires local != 4 && st.outcome == Pending
    ensures PassesLeft(local, Pass(local, st, answer)) < PassesLeft(local, st)
  {
    FailureDescends(local, st.remote);
  }

  lemma {:induction false} RunShortens(local: rate, remote: rate, answers: nat -> Answer, n: nat)
    requires local != 4
    ensures var st := Run(local, Start(remote), answers, n);
      st.outcome != Pending || PassesLeft(local, st) + n <= 10
  {
    if n > 0 {
      RunShortens(local, remote, answers, n - 1);
      var st := Run(local, Start(remote), answers, n - 1);
      if st.outcome == Pending { PassShortens(local, st, answers(n - 1)); }
    }
  }

  lemma {:induction false} MorePasses(local: rate, remote: rate, answers: nat -> Answer, n: nat)
    requires local != 4 && Run(local, Start(remote), answers, n).outcome == Pending
    ensures n < 10
  {
    RunShortens(local, remote, answers, n);
  }

  /** When speed 4 is the local limit, and the receiver offers no less, failure leads back to speed 4. */
  lemma {:induction false} SpeedFourRepeats(remote: rate, n: nat)
    requires BRINDEX[remote] >= 4
    ensures var st := Run(4, Start(remote), _ => Failed, n);
      st.outcome == Pending && BRINDEX[st.remote] >= 4
  {
    if n > 0 { SpeedFourRepeats(remote, n - 1); }
  }

  ghost predicate AlwaysEnds(local: rate)
  {
    forall remote: rate, answers: nat -> Answer :: Run(local, Start(remote), answers, 10).outcome != Pending
  }

  /** Training ends within ten passes, whatever the answers, exactly when the local speed is not 4. */
  lemma {:induction false} TrainingEnds(local: rate)
    ensures AlwaysEnds(local) <==> local != 4
  {
    if local != 4 {
      forall remote: rate, answers: nat -> Answer ensures Run(local, Start(remote), answers, 10).outcome != Pending {
        RunShortens(local, remote, answers, 10);
      }
    } else {
      SpeedFourRepeats(5, 10);
      assert Run(4, Start(5), _ => Failed, 10).outcome == Pending;
    }
  }

  /** A receiver that repeats its capabilities twice and then never trains. */
  function Stubborn(i: nat): Answer
  {
    if i < 2 then Capabilities(5) else Failed
  }

  /** Ten passes can be needed. */
  lemma {:induction false} TenPasses(remote: rate, n: nat)
    requires n < 10
    ensures var st := Run(5, Start(remote), Stubborn, n);
      st.outcome == Pending && (n >= 2 ==> st.tries == n && PassesLeft(5, st) == 10 - n)
  {
    if n > 0 { TenPasses(remote, n - 1); }
  }

  /** The speeds from the lowest to the highest in negotiation. */
  const SPEEDS: seq<rate> := [0, 1, 2, 3, 4, 6, 7, 5]

  /** Speed a is no higher than speed b. */
  predicate Within(a: rate, b: rate)
  {
    exists i, j | 0 <= i <= j < 8 :: SPEEDS[i] == a && SPEEDS[j] == b
  }

  lemma {:induction false} WithinIndex(a: rate, b: rate)
    ensures Within(a, b) <==> BRINDEX[a] <= BRINDEX[b]
  {
    assert SPEEDS[BRINDEX[a]] == a && SPEEDS[BRINDEX[b]] == b;
  }

  /** A confirmed speed is the highest that neither the sender's limit nor the last offer of the
      receiver forbids. */
  lemma {:induction false} TrainedSpeed(local: rate, st: St, answer: Answer)
    requires st.outcome == Pending && Pass(local, st, answer).outcome.Trained?
    ensures var speed := Pass(local, st, answer).outcome.speed;
      && answer == Confirmed && Within(speed, local) && Within(speed, st.remote)
      && forall r: rate | Within(r, local) && Within(r, st.remote) :: Within(r, speed)
  {
    var speed := Pass(local, st, answer).outcome.speed;
    WithinIndex(speed, local);
    WithinIndex(speed, st.remote);
    forall r: rate | Within(r, local) && Within(r, st.remote) ensures Within(r, speed) {
      WithinIndex(r, local);
      WithinIndex(r, st.remote);
      WithinIndex(r, speed);
    }
  }

  lemma {:induction false} PassTries(local: rate, st: St, answer: Answer)
    requires Pass(local, st, answer).outcome == Pending
    ensures st.outcome == Pending && Pass(local, st, answer).tries == st.tries + 1
  {
  }

  /** Each pass is a try. */
  lemma {:induction false} TriesCount(local: rate, remote: rate, answers: nat -> Answer, n: nat)
    requires Run(local, Start(remote), answers, n).outcome == Pending
    ensures Run(local, Start(remote), answers, n).tries == n
  {
    hide Pass;
    if n > 0 {
      PassTries(local, Run(local, Start(remote), answers, n - 1), answers(n - 1));
      TriesCount(local, remote, answers, n - 1);
    }
  }

  lemma {:induction false} PassEnds(local: rate, st: St, answer: Answer)
    requires st.outcome == Pending
    ensures var next := Pass(local, st, answer);
      && (next.outcome == TimedOut <==> st.tries >= 2 && (answer.Silent? || answer.Capabilities?))
      && (next.outcome == NoChannel <==> answer.Failed? && MinRate(local, st.remote) == 0)
      && (next.outcome.Trained? <==> answer.Confirmed?)
      && (next.outcome == Invalid <==> answer.Other?)
  {
  }

  /** How a pass ends: three tries without a verdict on the channel are too many, and a channel
      that fails at the lowest speed is no good. */
  lemma {:induction false} OutcomeAt(local: rate, remote: rate, answers: nat -> Answer, n: nat)
    requires Run(local, Start(remote), answers, n).outcome == Pending
    ensures var st, next := Run(local, Start(remote), answers, n), Run(local, Start(remote), answers, n + 1);
      && st.tries == n
      && (next.outcome == TimedOut <==> n >= 2 && (answers(n).Silent? || answers(n).Capabilities?))
      && (next.outcome == NoChannel <==> answers(n).Failed? && MinRate(local, st.remote) == 0)
      && (next.outcome.Trained? <==> answers(n).Confirmed?)
      && (next.outcome == Invalid <==> answers(n).Other?)
  {
    TriesCount(local, remote, answers, n);
    PassEnds(local, Run(local, Start(remote), answers, n), answers(n));
  }

  /** The training loop's variables. */
  class Trainer {
    const local: rate
    var tries: nat
    var remote: rate
    var session: rate

    constructor (local: rate, remote: rate)
      ensures this.local == local && this.remote == remote && tries == 0
    {
      this.local := local;
      this.remote := remote;
      tries, session := 0, 0;
    }

    /** Propose the highest common speed and act on the answer. */
    method Attempt(answer: Answer) returns (outcome: Outcome)
      modifies this
      ensures Pass(local, St(old(tries), old(remote), Pending), answer) == St(tries, remote, outcome)
    {
      session := if BRINDEX[remote] < BRINDEX[local] then remote else local;
      tries := tries + 1;
      outcome := Pending;
      match answer
      case Silent =>
        if tries >= MAXTRY { outcome := TimedOut; }
      case Capabilities(speed) =>
        if tries >= MAXTRY { outcome := TimedOut; } else { remote := speed; }
      case Failed =>
        if FALLBACK[session] >= 0 { remote := FALLBACK[session]; } else { outcome := NoChannel; }
      case Confirmed =>
        outcome := Trained(session);
      case Other =>
        outcome := Invalid;
    }

    method Train(answers: nat -> Answer) returns (outcome: Outcome, ghost n: nat)
      requires local != 4 && tries == 0
      modifies this
      ensures n <= 10 && outcome != Pending
      ensures St(tries, remote, outcome) == Run(local, Start(old(remote)), answers, n)
    {
      ghost var remote0 := remote;
      var i := 0;
      outcome, n := Pending, 0;
      while outcome == Pending
        invariant i == n <= 10
        invariant St(tries, remote, outcome) == Run(local, Start(remote0), answers, n)
        decreases 10 - n
      {
        MorePasses(local, remote0, answers, n);
        outcome := Attempt(answers(i));
        i, n := i + 1, n + 1;
      }
    }
  }
}
