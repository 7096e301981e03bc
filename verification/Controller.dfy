/** The controller of the fax program: user commands, the worker thread that makes up fax
    pages, and the child process that sends or receives. */
module Controller {

  datatype State =
    | Inactive | Sending | ReceiveAnswer | ReceiveTakeover | ReceiveStandby | StartSendOnStandby | SendOnStandby

  /** The pipe from the child: closed, open at both ends, or open for reading. */
  datatype Pipe = Closed | BothEnds | ReadEnd

  /** The worker thread: none, at work, or finished with its notification still to be handled. */
  datatype Worker = NoWorker | Working | Finished(made: bool)

  /** The controller's state and what it owns; sem counts the worker's posts not yet waited
      for, quits the signals that the program may end. */
  datatype Ctl = Ctl(state: State, closeDown: bool, child: bool, worker: Worker, pipe: Pipe, watched: bool, sem: nat,
                     quits: nat)

  /** User commands, the worker's end, its notification, and the exit of the child, each with
      what the system answers on the way. */
  datatype Event =
    | SendFax(receiving: bool, threadStarts: bool)
    | Receive(mode: State, dirMade: bool)
    | Stop
    | CloseDown
    | WorkerEnds(made: bool)
    | Notify(dirMade: bool)
    | ChildExits(exitCode: int, threadStarts: bool, dirMade: bool)

  function Idle(c: Ctl): Ctl
  {
    c.(state := Inactive)
  }

  /** A child started with its output watched. */
  function Joined(c: Ctl): Ctl
  {
    c.(child := true, pipe := ReadEnd, watched := true)
  }

  /** A new worker, with a pipe opened for the child to come. */
  function StartWorker(c: Ctl, state: State, threadStarts: bool): Ctl
  {
    if threadStarts then c.(state := state, worker := Working, pipe := BothEnds)
    else c.(state := Inactive, pipe := Closed)
  }

  function StartReceive(c: Ctl, mode: State, dirMade: bool): Ctl
  {
    if c.state != Inactive || !dirMade then c else Joined(c.(state := mode))
  }

  function Unjoined(c: Ctl): Ctl
  {
    c.(watched := false, pipe := Closed)
  }

  /** What is done once the child's exit has been seen. */
  function AfterExit(c: Ctl, exitCode: int, threadStarts: bool, dirMade: bool): Ctl
  {
    var u := Unjoined(c.(child := false));
    match c.state
    case Sending => Idle(u)
    case SendOnStandby => if !c.closeDown then StartReceive(Idle(u), ReceiveStandby, dirMade) else Idle(u)
    case StartSendOnStandby => if !c.closeDown then StartWorker(u, SendOnStandby, threadStarts) else Idle(u)
    case ReceiveStandby =>
      if (exitCode == 0 || exitCode == 3) && !c.closeDown then StartReceive(Idle(u), ReceiveStandby, dirMade)
      else Idle(u)
    case _ => Idle(u)
  }

  function SignalQuit(c: Ctl): Ctl
  {
    if c.closeDown && c.state == Inactive then c.(quits := c.quits + 1) else c
  }

  const RECEIVING: set<State> := {ReceiveAnswer, ReceiveTakeover, ReceiveStandby}

  /** The effect of an event; none if it cannot happen. */
  function Step(c: Ctl, e: Event): Ctl
  {
    match e
    case SendFax(receiving, threadStarts) =>
      if c.state == ReceiveStandby then (if receiving then c else c.(state := StartSendOnStandby))
      else if c.state == Inactive then StartWorker(c, Sending, threadStarts)
      else c
    case Receive(mode, dirMade) =>
      if mode in RECEIVING then StartReceive(c, mode, dirMade) else c
    case Stop => c
    case CloseDown => if c.state == Inactive then c.(quits := c.quits + 1) else c.(closeDown := true)
    case WorkerEnds(made) => if c.worker == Working then c.(worker := Finished(made), sem := c.sem + 1) else c
    case Notify(dirMade) =>
      if !c.worker.Finished? || c.sem == 0 then c
      else
        var w := c.(worker := NoWorker, sem := c.sem - 1);
        if c.worker.made then Joined(w)
        else if c.state == SendOnStandby then StartReceive(Idle(w.(pipe := Closed)), ReceiveStandby, dirMade)
        else Idle(w.(pipe := Closed))
    case ChildExits(exitCode, threadStarts, dirMade) =>
      if c.child then SignalQuit(AfterExit(c, exitCode, threadStarts, dirMade)) else c
  }

  /** Inactive exactly when nothing is owned; sending owns a worker or a child, and not both;
      receiving owns a watched child; and the worker's post is there when it is waited for. */
  predicate Valid(c: Ctl)
  {
    && (c.child <==> c.watched)
    && (c.child <==> c.pipe == ReadEnd)
    && (c.worker.NoWorker? <==> c.pipe != BothEnds)
    && !(c.child && !c.worker.NoWorker?)
    && (c.state == Inactive <==> !c.child && c.worker.NoWorker?)
    && (c.state in RECEIVING + {StartSendOnStandby} ==> c.child)
    && c.sem == (if c.worker.Finished? then 1 else 0)
  }

  lemma {:induction false} StepKeeps(c: Ctl, e: Event)
    requires Valid(c)
    ensures Valid(Step(c, e))
  {
  }

  function Run(c: Ctl, events: seq<Event>): Ctl
  {
    if events == [] then c else Step(Run(c, events[..|events| - 1]), events[|events| - 1])
  }

  const START := Ctl(Inactive, false, false, NoWorker, Closed, false, 0, 0)

  /** In every state that can be reached, the controller is inactive exactly when there is no
      child, no worker, and no open or watched pipe. */
  lemma {:induction false} Reachable(events: seq<Event>)
    ensures var c := Run(START, events);
      && Valid(c)
      && (c.state == Inactive <==> !c.child && c.worker == NoWorker && c.pipe == Closed && !c.watched)
  {
    if events != [] {
      Reachable(events[..|events| - 1]);
      StepKeeps(Run(START, events[..|events| - 1]), events[|events| - 1]);
    }
  }

  /** The program is told that it may end only when nothing is owned any more. */
  lemma {:induction false} QuitOnlyWhenIdle(events: seq<Event>, e: Event)
    ensures var c := Run(START, events); var d := Step(c, e);
      d.quits != c.quits ==> d.state == Inactive && !d.child && d.worker == NoWorker && d.pipe == Closed
  {
    Reachable(events);
    StepKeeps(Run(START, events), e);
  }

  /** Once closing down was asked for, an event that makes the controller inactive signals
      this exactly when it is the exit of the child; the news that no fax was made does not. */
  lemma {:induction false} QuitMissed(events: seq<Event>, e: Event)
    ensures var c := Run(START, events); var d := Step(c, e);
      c.closeDown && c.state != Inactive && d.state == Inactive ==>
        (d.quits == c.quits + 1 <==> e.ChildExits?) && (e.ChildExits? || e.Notify?)
  {
    Reachable(events);
  }

  /** The events after which the signal is missed: a fax is to be sent, closing down is asked
      for, and no fax could be made. */
  const NO_FAX: seq<Event> := [SendFax(false, true), CloseDown, WorkerEnds(false)]

  lemma {:induction false} QuitIsMissed(dirMade: bool)
    ensures var c := Run(START, NO_FAX); var d := Step(c, Notify(dirMade));
      c.closeDown && c.state == Sending && d.state == Inactive && d.closeDown && d.quits == 0
  {
    assert NO_FAX[..2] == [SendFax(false, true), CloseDown] && NO_FAX[..2][..1] == [SendFax(false, true)];
    Chain(START, NO_FAX);
  }

  lemma {:induction false} Chain(c: Ctl, events: seq<Event>)
    requires |events| == 3
    ensures Run(c, events) == Step(Step(Step(c, events[0]), events[1]), events[2])
  {
    assert events[..2][..1] == events[..1] && events[..1][..0] == [];
    assert Run(c, events[..1]) == Step(c, events[0]);
    assert Run(c, events[..2]) == Step(Step(c, events[0]), events[1]);
  }

  /** Closing down while a fax is made up on standby goes back to receiving exactly when the
      worker's news is that no fax was made, and a directory can be made to receive into;
      asking to close down once more then has no effect. */
  lemma {:induction false} StandbyResumes(events: seq<Event>, e: Event)
    ensures var c := Run(START, events); var d := Step(c, e);
      c.closeDown && c.state == SendOnStandby ==>
        && (d.state == ReceiveStandby <==> e.Notify? && c.worker == Finished(false) && e.dirMade)
        && (d.state == ReceiveStandby ==> d.quits == c.quits && Step(d, CloseDown) == d)
  {
    Reachable(events);
  }

  lemma {:induction false} RunConcat(c: Ctl, a: seq<Event>, b: seq<Event>)
    ensures Run(c, a + b) == Run(Run(c, a), b)
    decreases |b|
  {
    if b == [] {
      assert a + b == a;
    } else {
      assert (a + b)[..|a + b| - 1] == a + b[..|b| - 1];
      RunConcat(c, a, b[..|b| - 1]);
    }
  }

  /** The program receives on standby, is asked to send, stops receiving to make up the fax, is
      asked to close down, and makes no fax. */
  const STANDBY: seq<Event> := [Receive(ReceiveStandby, true), SendFax(false, true), ChildExits(0, true, true)]

  lemma {:induction false} StandbyDoesResume()
    ensures var c := Run(START, STANDBY + [CloseDown, WorkerEnds(false), Notify(true)]);
      c.closeDown && c.state == ReceiveStandby && c.child && c.quits == 0
  {
    RunConcat(START, STANDBY, [CloseDown, WorkerEnds(false), Notify(true)]);
    Chain(START, STANDBY);
    Chain(Run(START, STANDBY), [CloseDown, WorkerEnds(false), Notify(true)]);
  }

  /** The step starts a worker, or a child other than the one there was. */
  predicate Starts(c: Ctl, e: Event)
  {
    var d := Step(c, e);
    (d.worker == Working && c.worker != Working) || (d.child && (!c.child || e.ChildExits?))
  }

  /** Exactly what starts a worker or a child in any state that can be reached. Receiving on
      standby is taken up again after a child that received ended with code 0 or 3, after a
      fax was sent, and when none was made; sending goes on when the child that received has
      been stopped for it. */
  lemma {:induction false} StartsExactly(events: seq<Event>, e: Event)
    ensures var c := Run(START, events);
      Starts(c, e) <==>
        || (e.SendFax? && c.state == Inactive && e.threadStarts)
        || (e.Receive? && c.state == Inactive && e.mode in RECEIVING && e.dirMade)
        || (e.Notify? && c.worker == Finished(true))
        || (e.Notify? && c.worker == Finished(false) && c.state == SendOnStandby && e.dirMade)
        || (e.ChildExits? && c.state == StartSendOnStandby && !c.closeDown && e.threadStarts)
        || (e.ChildExits? && c.state == SendOnStandby && c.child && !c.closeDown && e.dirMade)
        || (e.ChildExits? && c.state == ReceiveStandby && e.exitCode in {0, 3} && !c.closeDown && e.dirMade)
  {
    Reachable(events);
  }

  /** Exactly when each state is entered. */
  lemma {:induction false} Enters(events: seq<Event>, e: Event)
    ensures var c := Run(START, events); var d := Step(c, e);
      d.state != c.state ==>
        && (d.state == Sending ==> c.state == Inactive && e.SendFax?)
        && (d.state in RECEIVING && e.Receive? ==> c.state == Inactive && d.state == e.mode)
        && (d.state in RECEIVING && !e.Receive? ==> c.state == SendOnStandby && d.state == ReceiveStandby)
        && (d.state == SendOnStandby ==> c.state == StartSendOnStandby && e.ChildExits?)
        && (d.state == Inactive ==> !Starts(c, e) && (e.ChildExits? || (e.Notify? && c.worker == Finished(false))))
    ensures var c := Run(START, events); var d := Step(c, e);
      && (d.state == StartSendOnStandby && c.state != StartSendOnStandby <==>
            e.SendFax? && !e.receiving && c.state == ReceiveStandby)
      && (Starts(c, e) && (e.SendFax? || e.Receive?) ==> d.state == if e.SendFax? then Sending else e.mode)
      && (e.ChildExits? && c.child && !Starts(c, e) ==> d.state == Inactive)
      && (e.Notify? && c.worker == Finished(false) && !Starts(c, e) ==> d.state == Inactive)
      && (e.Notify? && c.worker == Finished(true) ==> d.state == c.state)
  {
    Reachable(events);
  }

  /** The program is told that it may end exactly when it asks with nothing under way, or when
      the child ends after it has asked; it has asked once it does so with something under way. */
  lemma {:induction false} QuitsExactly(events: seq<Event>, e: Event)
    ensures var c := Run(START, events); var d := Step(c, e);
      && (d.closeDown <==> c.closeDown || (e.CloseDown? && c.state != Inactive))
      && d.quits == c.quits
           + if (e.CloseDown? && c.state == Inactive) || (e.ChildExits? && c.child && c.closeDown) then 1 else 0
  {
    Reachable(events);
  }

  /** The exit of a child that received on standby is followed by another one, again on
      standby, exactly when its code is 0 or 3, closing down was not asked for, and a directory
      can be made; otherwise the controller is inactive. */
  lemma {:induction false} StandbyRestarts(events: seq<Event>, exitCode: int, threadStarts: bool, dirMade: bool)
    requires Run(START, events).state == ReceiveStandby
    ensures var c := Run(START, events); var d := Step(c, ChildExits(exitCode, threadStarts, dirMade));
      if (exitCode == 0 || exitCode == 3) && !c.closeDown && dirMade then d.state == ReceiveStandby && d.child
      else d.state == Inactive && !d.child
  {
    Reachable(events);
  }

  /** What is still started once closing down was asked for: the sending of a fax that was being
      made up, receiving that was interrupted for a fax that is not made, and what the user
      asks of a controller that is already inactive. */
  lemma {:induction false} StartsAfterClose(events: seq<Event>, e: Event)
    ensures var c := Run(START, events);
      c.closeDown ==>
        (Starts(c, e) <==>
          || (e.Notify? && c.worker.Finished? && (c.worker.made || (c.state == SendOnStandby && e.dirMade)))
          || (c.state == Inactive && e.SendFax? && e.threadStarts)
          || (c.state == Inactive && e.Receive? && e.mode in RECEIVING && e.dirMade))
  {
    Reachable(events);
  }

  /** A fax being made up when closing down is asked for is sent all the same. */
  lemma {:induction false} StillSent(dirMade: bool)
    ensures var c := Step(Run(START, [SendFax(false, true), CloseDown, WorkerEnds(true)]), Notify(dirMade));
      c.closeDown && c.state == Sending && c.child
  {
    Chain(START, [SendFax(false, true), CloseDown, WorkerEnds(true)]);
  }

  /** The controller object. What it does with the pipe, the threads and the child is only
      allowed when it makes sense: a pipe is opened when closed, a child is started when there
      is none, a wait is for a post already made. */
  class EfaxController {
    var state: State
    var closeDown: bool
    var child: bool
    var worker: Worker
    var pipe: Pipe
    var watched: bool
    var sem: nat
    var quits: nat

    ghost function Now(): Ctl
      reads this
    {
      Ctl(state, closeDown, child, worker, pipe, watched, sem, quits)
    }

    constructor ()
      ensures Now() == START
    {
      state, closeDown, child, worker := Inactive, false, false, NoWorker;
      pipe, watched, sem, quits := Closed, false, 0, 0;
    }

    method OpenPipe()
      requires pipe == Closed
      modifies this`pipe
      ensures pipe == BothEnds
    {
      pipe := BothEnds;
    }

    method ClosePipe()
      requires pipe != Closed
      modifies this`pipe
      ensures pipe == Closed
    {
      pipe := Closed;
    }

    method StartThread(starts: bool) returns (started: bool)
      requires worker == NoWorker && pipe == BothEnds
      modifies this`worker
      ensures started == starts && worker == if starts then Working else NoWorker
    {
      started := starts;
      if started {
        worker := Working;
      }
    }

    method WaitForPost()
      requires sem > 0 && worker.Finished?
      modifies this`sem, this`worker
      ensures sem == old(sem) - 1 && worker == NoWorker
    {
      sem := sem - 1;
      worker := NoWorker;
    }

    /** Start the child, leave it the pipe's write end, and watch the read end. */
    method StartChild()
      requires !child && pipe == BothEnds && !watched
      modifies this`child, this`pipe, this`watched
      ensures child && pipe == ReadEnd && watched
    {
      child := true;
      pipe := ReadEnd;
      watched := true;
    }

    method UnjoinChild()
      requires watched && pipe == ReadEnd
      modifies this`pipe, this`watched
      ensures pipe == Closed && !watched
    {
      watched := false;
      ClosePipe();
    }

    method ReadyToQuit()
      requires state == Inactive && !child && worker == NoWorker && pipe == Closed && !watched
      modifies this`quits
      ensures quits == old(quits) + 1
    {
      quits := quits + 1;
    }

    method SendFaxImpl(receiving: bool, inTimerEvent: bool, threadStarts: bool)
      requires Valid(Now()) || (inTimerEvent && Reaped())
      requires inTimerEvent ==> Reaped()
      modifies this
      ensures inTimerEvent ==> Now() == StartWorker(old(Now()), SendOnStandby, threadStarts)
      ensures !inTimerEvent ==> Now() == Step(old(Now()), SendFax(receiving, threadStarts))
    {
      if state == ReceiveStandby {
        if !receiving {
          state := StartSendOnStandby;
        }
      } else if state == Inactive || (inTimerEvent && state == StartSendOnStandby) {
        OpenPipe();
        state := if state == Inactive then Sending else SendOnStandby;
        var started := StartThread(threadStarts);
        if !started {
          ClosePipe();
          state := Inactive;
        }
      }
    }

    /** The child is gone and nothing has been started in its place. */
    ghost predicate Reaped()
      reads this
    {
      state == StartSendOnStandby && !child && worker == NoWorker && pipe == Closed && !watched && sem == 0
    }

    method StartReceiving(mode: State, dirMade: bool)
      requires state == Inactive ==> Valid(Now())
      modifies this
      ensures Now() == StartReceive(old(Now()), mode, dirMade)
    {
      if state != Inactive || !dirMade {
        return;
      }
      OpenPipe();
      state := mode;
      StartChild();
    }

    /** The worker's notification that the fax is made. */
    method SendFaxSlot()
      requires Valid(Now()) && worker == Finished(true)
      modifies this
      ensures forall dirMade :: Now() == Step(old(Now()), Notify(dirMade))
    {
      WaitForPost();
      StartChild();
    }

    /** The worker's notification that no fax could be made. */
    method NoFaxMadeSlot(dirMade: bool)
      requires Valid(Now()) && worker == Finished(false)
      modifies this
      ensures Now() == Step(old(Now()), Notify(dirMade))
    {
      WaitForPost();
      ClosePipe();
      var was := state;
      state := Inactive;
      if was == SendOnStandby {
        StartReceiving(ReceiveStandby, dirMade);
      }
    }

    method EfaxClosedown()
      requires Valid(Now())
      modifies this
      ensures Now() == Step(old(Now()), CloseDown)
    {
      if state == Inactive {
        ReadyToQuit();
      } else if !closeDown {
        closeDown := true;
      }
    }

    /** The child's exit has been seen. */
    method TimerEvent(exitCode: int, threadStarts: bool, dirMade: bool)
      requires Valid(Now()) && child
      modifies this
      ensures Now() == Step(old(Now()), ChildExits(exitCode, threadStarts, dirMade))
    {
      child := false;
      var restart, over := false, false;
      if state == Sending || state == SendOnStandby {
        UnjoinChild();
        var was := state;
        state := Inactive;
        if was == SendOnStandby && !closeDown {
          StartReceiving(ReceiveStandby, dirMade);
        }
      } else if state == StartSendOnStandby {
        UnjoinChild();
        if !closeDown {
          SendFaxImpl(false, true, threadStarts);
        } else {
          state := Inactive;
        }
      } else if state == ReceiveStandby && (exitCode == 0 || exitCode == 3) && !closeDown {
        restart := true;
      } else {
        over := true;
      }
      if over || restart {
        UnjoinChild();
        state := Inactive;
        if restart {
          StartReceiving(ReceiveStandby, dirMade);
        }
      }
      if closeDown && state == Inactive {
        ReadyToQuit();
      }
    }
  }
}
