/** Every task is run: infinite executions of the wake-up protocol under strong fairness. */
module Fairness {
  import opened WakeUp

  /** At each instant one move is made, or nothing happens. */
  datatype Instant = Pause | Make(m: Move)

  ghost predicate Execution(run: nat -> State, instants: nat -> Instant) {
    && run(0) == START
    && (forall i: nat {:trigger instants(i)} ::
          match instants(i)
          case Pause => run(i + 1) == run(i)
          case Make(m) => Enabled(run(i), m) && run(i + 1) == Apply(run(i), m))
  }

  /** Those who may be waiting for their instant: a thread inside a call, and the loop. */
  datatype Agent = Caller(t: Thread) | TheLoop

  /** The agent can move on by itself.  Select is only counted on to return when the pipe
      has a byte, not for other channels or a timeout. */
  predicate Ready(s: State, a: Agent) {
    match a
    case Caller(t) => Enabled(s, Advance(t))
    case TheLoop =>
      && At(s, LOOP) == Idle && !s.loop.Exited?
      && (s.loop.Select? || s.loop.Reading? ==> s.pipe > 0)
      && (s.loop.DecLock? || s.loop.Closing? ==> s.holder == Nobody)
      && (s.loop.Getting? ==> s.queue != [])
  }

  predicate Acts(instant: Instant, a: Agent) {
    instant.Make? && match a case Caller(t) => instant.m == Advance(t) case TheLoop => instant.m.LoopMove?
  }

  ghost predicate ReadyFrom(run: nat -> State, a: Agent, i: nat) { exists j: nat :: i <= j && Ready(run(j), a) }

  ghost predicate ActsFrom(instants: nat -> Instant, a: Agent, i: nat) {
    exists j: nat :: i <= j && Acts(instants(j), a)
  }

  /** Strong fairness: who can move again and again does move again and again.  For a lock this
      means that a waiting thread is not overtaken for ever. */
  ghost predicate Fair(run: nat -> State, instants: nat -> Instant) {
    forall a: Agent, i: nat :: (forall k: nat :: ReadyFrom(run, a, k)) ==> ActsFrom(instants, a, i)
  }

  lemma {:induction false} InvAt(run: nat -> State, instants: nat -> Instant, i: nat)
    requires Execution(run, instants)
    ensures Inv(run(i))
  {
    hide Inv, Apply, Enabled;
    if i == 0 {
      StartInv();
    } else {
      InvAt(run, instants, i - 1);
      if instants(i - 1).Make? { MoveKeepsInv(run(i - 1), instants(i - 1).m); }
    }
  }

  lemma OwnMoveOnly(s: State, m: Move, t: Thread)
    requires Enabled(s, m) && At(s, t) != Idle && m != Advance(t)
    ensures At(Apply(s, m), t) == At(s, t)
  {
  }

  /** Inside a call a thread stays where it is until its own next move. */
  lemma {:induction false} Stays(run: nat -> State, instants: nat -> Instant, t: Thread, i: nat, j: nat)
    requires Execution(run, instants) && i <= j && At(run(i), t) != Idle
    requires forall k: nat :: i <= k < j ==> !Acts(instants(k), Caller(t))
    ensures At(run(j), t) == At(run(i), t)
    decreases j
  {
    hide Apply, Enabled;
    if i < j {
      Stays(run, instants, t, i, j - 1);
      assert !Acts(instants(j - 1), Caller(t));
      if instants(j - 1).Make? { OwnMoveOnly(run(j - 1), instants(j - 1).m, t); }
    }
  }

  lemma First(instants: nat -> Instant, a: Agent, i: nat, k: nat) returns (j: nat)
    requires i <= k && Acts(instants(k), a)
    ensures i <= j <= k && Acts(instants(j), a)
    ensures forall m: nat :: i <= m < j ==> !Acts(instants(m), a)
    decreases k
  {
    if m: nat :| i <= m < k && Acts(instants(m), a) {
      j := First(instants, a, i, m);
    } else {
      j := k;
    }
  }

  /** Anywhere but at the lock a thread can move, so it does. */
  lemma Advances(run: nat -> State, instants: nat -> Instant, t: Thread, i: nat) returns (j: nat)
    requires Execution(run, instants) && Fair(run, instants)
    requires At(run(i), t) != Idle && At(run(i), t) != Locking
    ensures i <= j && instants(j) == Make(Advance(t)) && At(run(j), t) == At(run(i), t)
    ensures forall k: nat :: i <= k < j ==> !Acts(instants(k), Caller(t))
  {
    if !ActsFrom(instants, Caller(t), i) {
      forall k: nat ensures ReadyFrom(run, Caller(t), k) {
        var m := if k < i then i else k;
        Stays(run, instants, t, i, m);
        assert Ready(run(m), Caller(t));
      }
      assert false;
    }
    var k: nat :| i <= k && Acts(instants(k), Caller(t));
    j := First(instants, Caller(t), i, k);
    Stays(run, instants, t, i, j);
  }

  lemma OneLess(s: State, t: Thread)
    requires Enabled(s, Advance(t))
    ensures Left(At(Apply(s, Advance(t)), t)) < Left(At(s, t))
    ensures Critical(At(s, t)) ==> Critical(At(Apply(s, Advance(t)), t)) || Apply(s, Advance(t)).holder == Nobody
  {
  }

  lemma LeavesLock(run: nat -> State, instants: nat -> Instant, t: Thread, i: nat) returns (j: nat)
    requires Execution(run, instants) && Fair(run, instants) && Critical(At(run(i), t))
    ensures i <= j && run(j).holder == Nobody
    decreases Left(At(run(i), t))
  {
    hide Apply, Enabled, Fair;
    var k := Advances(run, instants, t, i);
    OneLess(run(k), t);
    if run(k + 1).holder == Nobody {
      j := k + 1;
    } else {
      j := LeavesLock(run, instants, t, k + 1);
    }
  }

  /** Until its own next move the loop stays where it is, and no task leaves the queue. */
  lemma {:induction false} WaitsUntil(run: nat -> State, instants: nat -> Instant, i: nat, j: nat)
    requires Execution(run, instants) && i <= j
    requires forall m: nat :: i <= m < j ==> !Acts(instants(m), TheLoop)
    ensures run(j).loop == run(i).loop && run(i).queue <= run(j).queue
    decreases j
  {
    hide Apply, Enabled;
    if i < j {
      WaitsUntil(run, instants, i, j - 1);
      assert !Acts(instants(j - 1), TheLoop);
      if instants(j - 1).Make? { OthersDoNotDelay(run(j - 1), instants(j - 1).m); }
    }
  }

  /** With the lock in its hands the loop can always move, so it does. */
  lemma HoldingLoopActs(run: nat -> State, instants: nat -> Instant, i: nat) returns (j: nat)
    requires Execution(run, instants) && Fair(run, instants) && run(i).holder == LoopThread
    ensures i <= j && Acts(instants(j), TheLoop) && run(j).loop == run(i).loop && run(j).holder == LoopThread
  {
    hide Apply, Enabled;
    InvAt(run, instants, i);
    if !ActsFrom(instants, TheLoop, i) {
      forall k: nat ensures ReadyFrom(run, TheLoop, k) {
        var m := if k < i then i else k;
        WaitsUntil(run, instants, i, m);
        InvAt(run, instants, m);
        assert Ready(run(m), TheLoop);
      }
      assert false;
    }
    var k: nat :| i <= k && Acts(instants(k), TheLoop);
    j := First(instants, TheLoop, i, k);
    WaitsUntil(run, instants, i, j);
    InvAt(run, instants, j);
  }

  lemma LoopReleases(s: State, others: nat, fd: bool)
    requires s.loop.Decrementing? || s.loop.DecRelease?
    ensures var r := Looped(s, others, fd);
            if s.loop.DecRelease? then r.holder == Nobody else r.loop.DecRelease? && r.holder == s.holder
  {
  }

  /** Whoever holds the lock, it comes free again and again. */
  lemma LockComesFree(run: nat -> State, instants: nat -> Instant, i: nat) returns (j: nat)
    requires Execution(run, instants) && Fair(run, instants)
    ensures i <= j && run(j).holder == Nobody
    decreases if run(i).holder != LoopThread then 0 else if run(i).loop.DecRelease? then 1 else 2
  {
    hide Looped, Enabled, Fair;
    InvAt(run, instants, i);
    match run(i).holder {
      case Nobody => j := i;
      case Producer(t) => j := LeavesLock(run, instants, t, i);
      case LoopThread =>
        var k := HoldingLoopActs(run, instants, i);
        LoopReleases(run(k), instants(k).m.others, instants(k).m.fd);
        j := LockComesFree(run, instants, k + 1);
    }
  }

  /** A thread waiting for the lock gets it. */
  lemma GetsLock(run: nat -> State, instants: nat -> Instant, t: Thread, i: nat) returns (j: nat)
    requires Execution(run, instants) && Fair(run, instants) && At(run(i), t) == Locking
    ensures i <= j && instants(j) == Make(Advance(t)) && At(run(j), t) == At(run(i), t)
  {
    if !ActsFrom(instants, Caller(t), i) {
      forall k: nat ensures ReadyFrom(run, Caller(t), k) {
        var m := LockComesFree(run, instants, if k < i then i else k);
        Stays(run, instants, t, i, m);
        assert Ready(run(m), Caller(t));
      }
      assert false;
    }
    var k: nat :| i <= k && Acts(instants(k), Caller(t));
    j := First(instants, Caller(t), i, k);
    Stays(run, instants, t, i, j);
  }

  /** Every call returns. */
  lemma CallReturns(run: nat -> State, instants: nat -> Instant, t: Thread, i: nat) returns (j: nat)
    requires Execution(run, instants) && Fair(run, instants)
    ensures i <= j && At(run(j), t) == Idle
    decreases Left(At(run(i), t))
  {
    hide Apply, Enabled, Fair;
    if At(run(i), t) == Idle { return i; }
    var k;
    if At(run(i), t) == Locking {
      k := GetsLock(run, instants, t, i);
    } else {
      k := Advances(run, instants, t, i);
    }
    OneLess(run(k), t);
    j := CallReturns(run, instants, t, k + 1);
  }

  /** A request to stop is never taken back. */
  lemma {:induction false} StopStays(run: nat -> State, instants: nat -> Instant, i: nat, j: nat)
    requires Execution(run, instants) && i <= j && run(i).stop
    ensures run(j).stop && run(i).stoppers <= run(j).stoppers
    decreases j
  {
    hide Apply, Enabled;
    if i < j {
      StopStays(run, instants, i, j - 1);
      if instants(j - 1).Make? { StopLimitsWork(run(j - 1), instants(j - 1).m); }
    }
  }

  /** As long as it has not exited and has a reason to, a task or a request to stop, the loop moves,
      or it can. */
  lemma MovesOrCan(run: nat -> State, instants: nat -> Instant, i: nat) returns (j: nat)
    requires Execution(run, instants) && Fair(run, instants)
    requires !run(i).loop.Exited? && (run(i).queue != [] || run(i).stop)
    ensures i <= j && (Acts(instants(j), TheLoop) || Ready(run(j), TheLoop))
  {
    hide Apply, Enabled, Fair, Execution;
    InvAt(run, instants, i);
    j := i;
    if RunsUserCode(run(i).loop) {
      j := CallReturns(run, instants, LOOP, i);
    } else if run(i).loop.DecLock? || run(i).loop.Closing? {
      j := LockComesFree(run, instants, i);
    } else if run(i).loop.Select? && run(i).pipe == 0 {
      var t := Waker(run(i));
      j := CallReturns(run, instants, t, i);
      if run(i).stop { StopStays(run, instants, i, j); }
    }
    if k: nat :| i <= k < j && Acts(instants(k), TheLoop) { return k; }
    WaitsUntil(run, instants, i, j);
    InvAt(run, instants, j);
  }

  /** Someone whose call, once returned, has left a byte in the pipe. */
  lemma Waker(s: State) returns (t: Thread)
    requires s.queue != [] || s.stop
    requires Waking(s) && s.loop.Select? && s.pipe == 0
    ensures if s.queue != [] then t == s.queue[0].owner else t in s.stoppers
    ensures InFlight(At(s, t))
  {
    if s.queue != [] {
      t := s.queue[0].owner;
      assert CallOpen(s, s.queue[0]);
    } else {
      t :| t in s.stoppers;
    }
  }

  /** No wake-up is lost in the long run: with a task in the queue or a request to stop the loop
      moves again, and until then neither its place nor the task is lost. */
  lemma LoopMovesAgain(run: nat -> State, instants: nat -> Instant, i: nat) returns (j: nat)
    requires Execution(run, instants) && Fair(run, instants)
    requires !run(i).loop.Exited? && (run(i).queue != [] || run(i).stop)
    ensures i <= j && Acts(instants(j), TheLoop)
    ensures forall m: nat :: i <= m < j ==> !Acts(instants(m), TheLoop)
    ensures run(j).loop == run(i).loop && run(i).queue <= run(j).queue
  {
    hide Apply, Enabled, Execution;
    if !ActsFrom(instants, TheLoop, i) {
      forall k: nat ensures ReadyFrom(run, TheLoop, k) {
        var from := if k < i then i else k;
        WaitsUntil(run, instants, i, from);
        if run(i).stop { StopStays(run, instants, i, from); }
        var m := MovesOrCan(run, instants, from);
        assert Ready(run(m), TheLoop);
      }
      assert false;
    }
    var k: nat :| i <= k && Acts(instants(k), TheLoop);
    j := First(instants, TheLoop, i, k);
    WaitsUntil(run, instants, i, j);
  }

  // ---- tasks ----

  /** In every fair execution that is not stopped, every queued task is run. */
  lemma EveryTaskRuns(run: nat -> State, instants: nat -> Instant, i: nat, k: nat) returns (j: nat)
    requires Execution(run, instants) && Fair(run, instants)
    requires (forall m: nat :: !run(m).stop) && k < |run(i).queue|
    ensures i < j && run(j).loop == Running(run(i).queue[k]) && run(i).queue[k] in run(j).executed
    decreases Rank(run(i).loop, k).0, Rank(run(i).loop, k).1
  {
    hide Fair, Rank;
    InvAt(run, instants, i);
    var m := LoopMovesAgain(run, instants, i);
    InvAt(run, instants, m);
    var move := instants(m).m;
    LoopGetsCloser(run(m), move.others, move.fd, k);
    if run(m).loop.Getting? && k == 0 {
      j := m + 1;
    } else {
      j := EveryTaskRuns(run, instants, m + 1, if run(m).loop.Getting? then k - 1 else k);
    }
  }

  /** A thread's count of puts changes with its own moves only. */
  lemma {:induction false} PutsStay(run: nat -> State, instants: nat -> Instant, t: Thread, i: nat, j: nat)
    requires Execution(run, instants) && i <= j
    requires forall k: nat :: i <= k < j ==> !Acts(instants(k), Caller(t))
    ensures Puts(run(j), t) == Puts(run(i), t)
    decreases j
  {
    hide Apply, Enabled;
    if i < j {
      PutsStay(run, instants, t, i, j - 1);
      assert !Acts(instants(j - 1), Caller(t));
      if instants(j - 1).Make? { OwnPutsOnly(run(j - 1), instants(j - 1).m, t); }
    }
  }

  lemma OwnPutsOnly(s: State, m: Move, t: Thread)
    requires Enabled(s, m) && m != Advance(t)
    ensures Puts(Apply(s, m), t) == Puts(s, t)
  {
  }

  /** So every call of submit_task, by whatever thread, has its task run. */
  lemma EverySubmitRuns(run: nat -> State, instants: nat -> Instant, t: Thread, i: nat) returns (j: nat)
    requires Execution(run, instants) && Fair(run, instants)
    requires (forall m: nat :: !run(m).stop) && instants(i) == Make(Submit(t))
    ensures i < j && Task(t, Puts(run(i), t)) in run(j).executed
  {
    hide Fair, Rank;
    OwnPutsOnly(run(i), Submit(t), t);
    var k := Advances(run, instants, t, i + 1);
    PutsStay(run, instants, t, i + 1, k);
    var q := run(k + 1).queue;
    assert q[|q| - 1] == Task(t, Puts(run(i), t));
    j := EveryTaskRuns(run, instants, k + 1, |q| - 1);
  }

  // ---- stopping ----

  lemma {:induction false} WorkWaits(run: nat -> State, instants: nat -> Instant, i: nat, j: nat)
    requires Execution(run, instants) && i <= j && run(i).stop
    requires forall m: nat :: i <= m < j ==> !Acts(instants(m), TheLoop)
    ensures run(j).stop && run(j).loop == run(i).loop && Work(run(j)) == Work(run(i))
    decreases j
  {
    hide Apply, Enabled, Work;
    if i < j {
      WorkWaits(run, instants, i, j - 1);
      assert !Acts(instants(j - 1), TheLoop);
      if instants(j - 1).Make? {
        StopLimitsWork(run(j - 1), instants(j - 1).m);
        OthersDoNotDelay(run(j - 1), instants(j - 1).m);
      }
    }
  }

  /** In every fair execution a stopping loop finishes: it cleans up, closes the descriptor and
      exits, whatever is queued or being queued. */
  lemma StoppedLoopExits(run: nat -> State, instants: nat -> Instant, i: nat) returns (j: nat)
    requires Execution(run, instants) && Fair(run, instants) && run(i).stop
    ensures i <= j && run(j).loop.Exited? && run(j).closed
    decreases StopRank(run(i).loop, Work(run(i))).0, StopRank(run(i).loop, Work(run(i))).1,
              StopRank(run(i).loop, Work(run(i))).2
  {
    hide Fair, Looped, Enabled, Work;
    InvAt(run, instants, i);
    if run(i).loop.Exited? { return i; }
    var m := LoopMovesAgain(run, instants, i);
    WorkWaits(run, instants, i, m);
    var move := instants(m).m;
    StoppingLoopGetsNearer(run(m), move.others, move.fd);
    StopLimitsWork(run(m), move);
    j := StoppedLoopExits(run, instants, m + 1);
  }

  /** So every call of stop, by whatever thread, ends the loop. */
  lemma EveryStopExits(run: nat -> State, instants: nat -> Instant, t: Thread, i: nat) returns (j: nat)
    requires Execution(run, instants) && Fair(run, instants) && instants(i) == Make(CallStop(t))
    ensures i < j && run(j).loop.Exited? && run(j).closed
  {
    hide Fair;
    var k := Advances(run, instants, t, i + 1);
    j := StoppedLoopExits(run, instants, k + 1);
  }
}
