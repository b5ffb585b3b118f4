/** Waking the loop up from other threads: the task queue, the counter under a lock and the
    one-byte pipe, as an interleaving of any number of submitting threads and the loop.

    One `Move` is one atomic access to shared state.  A thread inside submit_task or stop is
    at some `Pc`, the loop's thread at some `Loop`.  Handlers and tasks run on the loop's
    thread may submit and stop as well; the loop itself then waits for that call. */
module WakeUp {

  type Thread = nat

  /** The loop's own thread. */
  const LOOP: Thread := 0

  /** The n-th task put into the queue by a thread. */
  datatype Task = Task(owner: Thread, n: nat)

  /** Inside submit_task (put, then interrupt) or stop (set the flag, then interrupt);
      interrupt is unsafe_write, from taking the lock to releasing it. */
  datatype Pc = Idle | Putting | Flagging | Locking | Testing | Writing | Incrementing | Releasing

  /** The loop's position.  `others` counts polled events of channels still to be handled. */
  datatype Loop =
    | StopCheck
    | Select
    | Events(others: nat, fd: bool)
    | Reading(others: nat)       // unsafe_read: the byte is read without the lock,
    | DecLock(others: nat)       // then the counter is decremented under it
    | Decrementing(others: nat)
    | DecRelease(others: nat)
    | Drain
    | Getting
    | Running(task: Task)
    | Timeouts
    | Closing
    | Exited

  datatype Holder = Nobody | Producer(t: Thread) | LoopThread

  datatype State = State(
    pc: map<Thread, Pc>,
    puts: map<Thread, nat>,
    loop: Loop,
    queue: seq<Task>,
    holder: Holder,
    counts: int,          // _unsafe_counts
    pipe: nat,            // bytes in the pipe
    closed: bool,
    stop: bool,           // _stop_polling
    stoppers: set<Thread>,
    log: seq<Task>,       // every task ever put, in order
    executed: seq<Task>)  // every task the loop has started, in order

  const START := State(map[], map[], StopCheck, [], Nobody, 0, 0, false, false, {}, [], [])

  function At(s: State, t: Thread): Pc { if t in s.pc then s.pc[t] else Idle }

  function Puts(s: State, t: Thread): nat { if t in s.puts then s.puts[t] else 0 }

  datatype Move =
    | Submit(t: Thread)
    | CallStop(t: Thread)
    | Advance(t: Thread)
    | LoopMove(others: nat, fd: bool)  // the arguments are what select reports, and which event is handled next

  /** Handlers, tasks and callbacks run on the loop's thread at these points only. */
  predicate RunsUserCode(l: Loop) { l.Events? || l.Running? || l.Timeouts? }

  predicate Enabled(s: State, m: Move) {
    match m
    case Submit(t) => MayCall(s, t)
    case CallStop(t) => MayCall(s, t)
    case Advance(t) => At(s, t) != Idle && (At(s, t) == Locking ==> s.holder == Nobody)
    case LoopMove(others, fd) => At(s, LOOP) == Idle && LoopEnabled(s, others, fd)
  }

  /** submit_task raises once the loop is stopping, and stop returns at once. */
  predicate MayCall(s: State, t: Thread) {
    At(s, t) == Idle && !s.stop && !s.closed && (t == LOOP ==> RunsUserCode(s.loop))
  }

  /** Select may also return for channels or a timeout, or miss a byte that has just arrived;
      reading and getting block on an empty pipe or queue. */
  predicate LoopEnabled(s: State, others: nat, fd: bool) {
    match s.loop
    case Select => fd ==> s.pipe > 0
    case Events(o, f) => if fd then f else o > 0 || !f
    case Reading(_) => s.pipe > 0
    case DecLock(_) => s.holder == Nobody
    case Getting => s.queue != []
    case Closing => s.holder == Nobody
    case Exited => false
    case _ => true
  }

  function Apply(s: State, m: Move): State
    requires Enabled(s, m)
  {
    match m
    case Submit(t) => s.(pc := s.pc[t := Putting])
    case CallStop(t) => s.(pc := s.pc[t := Flagging])
    case Advance(t) => Advanced(s, t)
    case LoopMove(others, fd) => Looped(s, others, fd)
  }

  function Advanced(s: State, t: Thread): State
    requires At(s, t) != Idle
  {
    match At(s, t)
    case Putting =>
      var task := Task(t, Puts(s, t));
      s.(queue := s.queue + [task], log := s.log + [task],
         puts := s.puts[t := Puts(s, t) + 1], pc := s.pc[t := Locking])
    case Flagging => s.(stop := true, stoppers := s.stoppers + {t}, pc := s.pc[t := Locking])
    case Locking => s.(holder := Producer(t), pc := s.pc[t := Testing])
    case Testing => s.(pc := s.pc[t := if s.closed || s.counts > 0 then Releasing else Writing])
    case Writing => s.(pipe := s.pipe + 1, pc := s.pc[t := Incrementing])
    case Incrementing => s.(counts := s.counts + 1, pc := s.pc[t := Releasing])
    case Releasing => s.(holder := Nobody, pc := s.pc[t := Idle])
  }

  function Looped(s: State, others: nat, fd: bool): State
    requires LoopEnabled(s, others, fd)
  {
    match s.loop
    case StopCheck => s.(loop := if s.stop then Closing else Select)
    case Select => s.(loop := Events(others, fd))
    case Events(o, f) => s.(loop := if fd then Reading(o) else if o > 0 then Events(o - 1, f) else Drain)
    case Reading(o) => s.(pipe := s.pipe - 1, loop := DecLock(o))
    case DecLock(o) => s.(holder := LoopThread, loop := Decrementing(o))
    case Decrementing(o) => s.(counts := s.counts - 1, loop := DecRelease(o))
    case DecRelease(o) => s.(holder := Nobody, loop := Events(o, false))
    case Drain => s.(loop := if s.queue == [] then Timeouts else Getting)
    case Getting => s.(queue := s.queue[1..], executed := s.executed + [s.queue[0]], loop := Running(s.queue[0]))
    case Running(_) => s.(loop := Drain)
    case Timeouts => s.(loop := StopCheck)
    case Closing => s.(closed := true, loop := Exited)
  }

  // ---- the invariant ----

  predicate Critical(pc: Pc) { pc == Testing || pc == Writing || pc == Incrementing || pc == Releasing }

  /** Between queueing the task, or setting the flag, and the point where a byte is
      certainly in the pipe or on its way to the loop. */
  predicate InFlight(pc: Pc) { pc == Locking || pc == Testing || pc == Writing }

  /** The loop is past its last look at the queue. */
  predicate Quiet(l: Loop) { l.Timeouts? || l.StopCheck? || l.Select? }

  ghost predicate Locks(s: State) {
    && (forall t :: Critical(At(s, t)) <==> s.holder == Producer(t))
    && (s.holder == LoopThread <==> s.loop.Decrementing? || s.loop.DecRelease?)
    && (At(s, LOOP) != Idle ==> RunsUserCode(s.loop))
  }

  predicate HolderAt(s: State, pc: Pc) { s.holder.Producer? && At(s, s.holder.t) == pc }

  /** A byte written but not counted yet. */
  function Uncounted(s: State): nat { if HolderAt(s, Incrementing) then 1 else 0 }

  /** A byte read but still counted. */
  function Unsettled(s: State): nat { if s.loop.DecLock? || s.loop.Decrementing? then 1 else 0 }

  /** Counter and pipe never disagree, and there is at most one byte. */
  ghost predicate Tokens(s: State) {
    && (s.closed <==> s.loop.Exited?)
    && (s.loop.Closing? || s.loop.Exited? ==> s.stop)
    && s.counts >= 0
    && s.counts + Uncounted(s) == s.pipe + Unsettled(s) <= 1
    && (HolderAt(s, Writing) ==> s.counts == 0 && !s.closed)
    && (HolderAt(s, Incrementing) ==> !s.closed)
    && (s.loop.Reading? || (s.loop.Events? && s.loop.fd) ==> s.pipe == 1)
    && (s.loop.Getting? ==> s.queue != [])
  }

  /** While the loop does not look at the queue and nothing would wake it up, every queued task
      belongs to a call that has yet to write; so does, in select, every request to stop. */
  ghost predicate Waking(s: State) {
    && (s.stop <==> s.stoppers != {})
    && (Quiet(s.loop) && s.pipe == 0 ==>
          forall i :: 0 <= i < |s.queue| ==> CallOpen(s, s.queue[i]))
    && (s.loop.Select? && s.pipe == 0 ==> forall t :: t in s.stoppers ==> InFlight(At(s, t)))
  }

  predicate CallOpen(s: State, task: Task) { InFlight(At(s, task.owner)) && task.n + 1 == Puts(s, task.owner) }

  /** The numbers of t's tasks in a list, in order. */
  function Numbers(log: seq<Task>, t: Thread): seq<nat> {
    if log == [] then []
    else Numbers(log[..|log| - 1], t) + if log[|log| - 1].owner == t then [log[|log| - 1].n] else []
  }

  ghost predicate History(s: State) {
    && s.log == s.executed + s.queue
    && (forall t :: |Numbers(s.log, t)| == Puts(s, t))
    && (forall t, k :: 0 <= k < |Numbers(s.log, t)| ==> Numbers(s.log, t)[k] == k)
  }

  ghost predicate Inv(s: State) { Locks(s) && Tokens(s) && Waking(s) && History(s) }

  // ---- every move keeps it ----

  lemma StartInv()
    ensures Inv(START)
  {
  }

  lemma AdvanceKeepsLocks(s: State, t: Thread)
    requires Locks(s) && Enabled(s, Advance(t))
    ensures Locks(Advanced(s, t))
  {
    var r := Advanced(s, t);
    forall u ensures Critical(At(r, u)) <==> r.holder == Producer(u) {
      assert Critical(At(s, u)) <==> s.holder == Producer(u);
      assert Critical(At(s, t)) <==> s.holder == Producer(t);
    }
  }

  lemma LoopKeepsLocks(s: State, others: nat, fd: bool)
    requires Locks(s) && Enabled(s, LoopMove(others, fd))
    ensures Locks(Looped(s, others, fd))
  {
    var r := Looped(s, others, fd);
    assert r.pc == s.pc;
    forall u ensures Critical(At(r, u)) <==> r.holder == Producer(u) {
      assert At(r, u) == At(s, u);
      assert Critical(At(s, u)) <==> s.holder == Producer(u);
    }
  }

  lemma MoveKeepsLocks(s: State, m: Move)
    requires Locks(s) && Enabled(s, m)
    ensures Locks(Apply(s, m))
  {
    hide Advanced, Looped;
    match m {
      case Advance(t) => AdvanceKeepsLocks(s, t);
      case LoopMove(others, fd) => LoopKeepsLocks(s, others, fd);
      case _ => assert forall u :: Critical(At(Apply(s, m), u)) <==> Critical(At(s, u));
    }
  }

  lemma AdvanceKeepsTokens(s: State, t: Thread)
    requires Locks(s) && Tokens(s) && Enabled(s, Advance(t))
    ensures Tokens(Advanced(s, t))
  {
    assert Critical(At(s, t)) <==> s.holder == Producer(t);
  }

  lemma MoveKeepsTokens(s: State, m: Move)
    requires Locks(s) && Tokens(s) && Enabled(s, m)
    ensures Tokens(Apply(s, m))
  {
    hide Advanced;
    if m.Advance? { AdvanceKeepsTokens(s, m.t); }
  }

  lemma AdvanceKeepsWaking(s: State, t: Thread)
    requires Locks(s) && Tokens(s) && Waking(s) && Enabled(s, Advance(t))
    ensures Waking(Advanced(s, t))
  {
    var r := Advanced(s, t);
    assert Critical(At(s, t)) <==> s.holder == Producer(t);
    if Quiet(r.loop) && r.pipe == 0 {
      forall i | 0 <= i < |r.queue| ensures CallOpen(r, r.queue[i]) {
        if i < |s.queue| { assert CallOpen(s, s.queue[i]); }
      }
    }
  }

  lemma MoveKeepsWaking(s: State, m: Move)
    requires Locks(s) && Tokens(s) && Waking(s) && Enabled(s, m)
    ensures Waking(Apply(s, m))
  {
    hide Advanced;
    var r := Apply(s, m);
    if m.Advance? {
      AdvanceKeepsWaking(s, m.t);
    } else if Quiet(r.loop) && r.pipe == 0 {
      forall i | 0 <= i < |r.queue| ensures CallOpen(r, r.queue[i]) {
        if Quiet(s.loop) { assert CallOpen(s, s.queue[i]); }
      }
    }
  }

  lemma NumbersMore(log: seq<Task>, task: Task, t: Thread)
    ensures Numbers(log + [task], t) == Numbers(log, t) + if task.owner == t then [task.n] else []
  {
    assert (log + [task])[..|log|] == log;
  }

  lemma PutKeepsHistory(s: State, t: Thread)
    requires History(s) && At(s, t) == Putting
    ensures History(Advanced(s, t))
  {
    var r, task := Advanced(s, t), Task(t, Puts(s, t));
    assert r.log == r.executed + r.queue by { assert s.executed + (s.queue + [task]) == s.executed + s.queue + [task]; }
    forall u ensures Numbers(r.log, u) == Numbers(s.log, u) + if u == t then [task.n] else [] {
      NumbersMore(s.log, task, u);
    }
  }

  lemma GetKeepsHistory(s: State, others: nat, fd: bool)
    requires History(s) && LoopEnabled(s, others, fd)
    ensures History(Looped(s, others, fd))
  {
    hide Numbers;
    if s.loop.Getting? { assert s.queue == [s.queue[0]] + s.queue[1..]; }
  }

  lemma MoveKeepsHistory(s: State, m: Move)
    requires History(s) && Enabled(s, m)
    ensures History(Apply(s, m))
  {
    hide Numbers;
    match m {
      case Advance(t) => if At(s, t) == Putting { PutKeepsHistory(s, t); }
      case LoopMove(others, fd) => GetKeepsHistory(s, others, fd);
      case _ =>
    }
  }

  lemma MoveKeepsInv(s: State, m: Move)
    requires Inv(s) && Enabled(s, m)
    ensures Inv(Apply(s, m))
  {
    hide Locks, Tokens, Waking, History, Apply, Enabled;
    MoveKeepsLocks(s, m);
    MoveKeepsTokens(s, m);
    MoveKeepsWaking(s, m);
    MoveKeepsHistory(s, m);
  }

  // ---- whole runs ----

  /** Every move of the interleaving was possible when it was made. */
  ghost predicate Possible(moves: seq<Move>)
    decreases |moves|, 0
  {
    moves == [] || (Possible(moves[..|moves| - 1]) && Enabled(After(moves[..|moves| - 1]), moves[|moves| - 1]))
  }

  ghost function After(moves: seq<Move>): State
    requires Possible(moves)
    decreases |moves|, 1
  {
    if moves == [] then START else Apply(After(moves[..|moves| - 1]), moves[|moves| - 1])
  }

  lemma {:induction false} InvAfter(moves: seq<Move>)
    requires Possible(moves)
    ensures Inv(After(moves))
    decreases |moves|
  {
    hide Inv, Apply, Enabled;
    if moves == [] {
      StartInv();
    } else {
      InvAfter(moves[..|moves| - 1]);
      MoveKeepsInv(After(moves[..|moves| - 1]), moves[|moves| - 1]);
    }
  }

  /** submit_task has returned to the caller that queued this task. */
  predicate Returned(s: State, task: Task) {
    At(s, task.owner) == Idle || At(s, task.owner) == Putting || task.n + 1 < Puts(s, task.owner)
  }

  lemma QueuedCallsAreOpen(s: State, i: nat)
    requires Waking(s) && i < |s.queue|
    ensures Quiet(s.loop) && s.pipe == 0 ==> CallOpen(s, s.queue[i])
  {
  }

  /** The loop will drain the queue before it selects again. */
  predicate DrainAhead(l: Loop) { !Quiet(l) && !l.Closing? && !l.Exited? }

  /** No wake-up is lost: in every reachable state that is not stopped, once submit_task has
      returned, either the task is out of the queue, or a byte is in the pipe, or the loop has
      yet to drain the queue before it selects again. */
  lemma NoLostWakeUp(moves: seq<Move>, i: nat)
    requires Possible(moves) && !After(moves).stop
    requires var s := After(moves); i < |s.queue| && Returned(s, s.queue[i])
    ensures var s := After(moves); s.pipe == 1 || DrainAhead(s.loop)
  {
    InvAfter(moves);
    QueuedCallsAreOpen(After(moves), i);
  }

  /** Nor is a stop: when it has returned and the loop is in select, a byte will get it out. */
  lemma NoLostStop(moves: seq<Move>, t: Thread)
    requires Possible(moves)
    requires t in After(moves).stoppers && At(After(moves), t) == Idle
    ensures After(moves).pipe == 1 || !After(moves).loop.Select?
  {
    InvAfter(moves);
  }

  /** The counter is never negative and never above one, reading the pipe and getting a task never
      block, a byte is written only into an empty pipe. */
  lemma NothingBlocksTheLoop(moves: seq<Move>)
    requires Possible(moves)
    ensures var s := After(moves);
            && 0 <= s.counts <= 1 && s.pipe <= 1
            && (s.loop.Reading? ==> s.pipe == 1)
            && (s.loop.Getting? ==> s.queue != [])
            && (s.loop.Decrementing? ==> s.counts == 1)
            && (forall t :: At(s, t) == Writing ==> s.pipe == 0)
  {
    InvAfter(moves);
    var s := After(moves);
    forall t | At(s, t) == Writing ensures s.pipe == 0 {
      assert Critical(At(s, t));
    }
  }

  /** Once the descriptor is closed it is never written, read or counted again, by whatever
      call is still on its way and whatever happens next. */
  lemma {:induction false} ClosedForGood(moves: seq<Move>, n: nat)
    requires Possible(moves) && n <= |moves|
    ensures Possible(moves[..n])
    ensures var s, r := After(moves[..n]), After(moves);
            s.closed ==> r.closed && r.counts == s.counts && r.pipe == s.pipe
    decreases |moves|
  {
    hide Apply, Enabled, Inv;
    if n == |moves| {
      assert moves[..n] == moves;
    } else {
      var before, m := moves[..|moves| - 1], moves[|moves| - 1];
      assert before[..n] == moves[..n];
      ClosedForGood(before, n);
      InvAfter(before);
      if After(before).closed { ClosedStays(After(before), m); }
    }
  }

  lemma ClosedStays(s: State, m: Move)
    requires Inv(s) && Enabled(s, m) && s.closed
    ensures var r := Apply(s, m); r.closed && r.counts == s.counts && r.pipe == s.pipe
  {
    if m.Advance? { assert Critical(At(s, m.t)) <==> s.holder == Producer(m.t); }
  }

  /** Mutual exclusion on the lock. */
  lemma OneInside(moves: seq<Move>, t: Thread, u: Thread)
    requires Possible(moves)
    requires Critical(At(After(moves), t)) && Critical(At(After(moves), u))
    ensures t == u && !After(moves).loop.Decrementing? && !After(moves).loop.DecRelease?
  {
    InvAfter(moves);
  }

  /** Linearisation: tasks run in the order of their puts, each once, and those of one thread in
      the order in which that thread submitted them, none left out. */
  lemma TasksRunInOrder(moves: seq<Move>, t: Thread)
    requires Possible(moves)
    ensures var s := After(moves);
            && s.executed <= s.log && s.log == s.executed + s.queue
            && |Numbers(s.executed, t)| <= Puts(s, t)
            && (forall k :: 0 <= k < |Numbers(s.executed, t)| ==> Numbers(s.executed, t)[k] == k)
  {
    InvAfter(moves);
    var s := After(moves);
    NumbersOfPrefix(s.log, |s.executed|, t);
    assert s.log[..|s.executed|] == s.executed;
  }

  lemma {:induction false} NumbersOfPrefix(log: seq<Task>, n: nat, t: Thread)
    requires n <= |log|
    ensures Numbers(log[..n], t) <= Numbers(log, t)
  {
    if n < |log| {
      assert log[..|log| - 1][..n] == log[..n];
      NumbersOfPrefix(log[..|log| - 1], n, t);
    } else {
      assert log[..n] == log;
    }
  }

  // ---- progress ----

  /** How many moves a call still makes, at most. */
  function Left(pc: Pc): nat {
    match pc
    case Idle => 0
    case Putting => 6
    case Flagging => 6
    case Locking => 5
    case Testing => 4
    case Writing => 3
    case Incrementing => 2
    case Releasing => 1
  }

  /** How far the loop is from running the i-th queued task: stage, then steps within it. */
  function Rank(l: Loop, i: nat): (nat, nat) {
    match l
    case Timeouts => (5, 0)
    case StopCheck => (4, 0)
    case Select => (3, 0)
    case Events(o, f) => (2, 6 * o + if f then 5 else 0)
    case Reading(o) => (2, 6 * o + 4)
    case DecLock(o) => (2, 6 * o + 3)
    case Decrementing(o) => (2, 6 * o + 2)
    case DecRelease(o) => (2, 6 * o + 1)
    case Running(_) => (1, 3 * i + 3)
    case Drain => (1, 3 * i + 2)
    case Getting => (1, 3 * i + 1)
    case _ => (0, 0)
  }

  predicate Closer(a: (nat, nat), b: (nat, nat)) { a.0 < b.0 || (a.0 == b.0 && a.1 < b.1) }

  /** Every move of the loop runs the task or brings it strictly closer, whatever select reports. */
  lemma LoopGetsCloser(s: State, others: nat, fd: bool, i: nat)
    requires !s.stop && !s.loop.Closing? && i < |s.queue| && LoopEnabled(s, others, fd)
    ensures var r := Looped(s, others, fd);
            if s.loop.Getting? && i == 0 then r.executed == s.executed + [s.queue[0]]
            else var j := if s.loop.Getting? then i - 1 else i;
              j < |r.queue| && r.queue[j] == s.queue[i] && Closer(Rank(r.loop, j), Rank(s.loop, i)) && !r.loop.Closing?
  {
  }

  /** Moves of the other threads take nothing away and leave the loop where it is. */
  lemma OthersDoNotDelay(s: State, m: Move)
    requires Enabled(s, m) && !m.LoopMove?
    ensures var r := Apply(s, m); r.loop == s.loop && r.executed == s.executed && s.queue <= r.queue
  {
  }

  // ---- stopping ----

  /** The threads that are about to put a task. */
  function Putters(s: State): set<Thread> { set t | t in s.pc && s.pc[t] == Putting }

  /** How many tasks a stopping loop can still be given. */
  function Work(s: State): nat { |s.queue| + |Putters(s)| }

  lemma PuttersAfter(s: State, m: Move)
    requires s.stop && Enabled(s, m)
    ensures Putters(Apply(s, m)) == if m.Advance? && At(s, m.t) == Putting then Putters(s) - {m.t} else Putters(s)
  {
    var r := Apply(s, m);
    if m.LoopMove? {
      LoopLeavesThreads(s, m.others, m.fd);
    } else {
      assert r.pc.Keys == s.pc.Keys && forall t :: t in s.pc && t != m.t ==> r.pc[t] == s.pc[t];
    }
  }

  lemma LoopLeavesThreads(s: State, others: nat, fd: bool)
    requires LoopEnabled(s, others, fd)
    ensures var r := Looped(s, others, fd);
            && r.pc == s.pc && r.stop == s.stop && r.stoppers == s.stoppers
            && r.queue == if s.loop.Getting? then s.queue[1..] else s.queue
  {
  }

  /** After a stop nobody joins in, and the stop itself is not forgotten: the work goes down by every
      task the loop takes, and otherwise stays. */
  lemma StopLimitsWork(s: State, m: Move)
    requires s.stop && Enabled(s, m)
    ensures var r := Apply(s, m);
            && r.stop && s.stoppers <= r.stoppers
            && Work(r) == if m.LoopMove? && s.loop.Getting? then Work(s) - 1 else Work(s)
  {
    hide Looped, Putters;
    PuttersAfter(s, m);
    if m.LoopMove? {
      LoopLeavesThreads(s, m.others, m.fd);
    } else if At(s, m.t) == Putting {
      assert m.t in Putters(s) by { IsPutter(s, m.t); }
    }
  }

  lemma IsPutter(s: State, t: Thread)
    ensures t in Putters(s) <==> At(s, t) == Putting
  {
  }

  /** How far a stopping loop is from its end: stage, work, steps within the stage. */
  function StopRank(l: Loop, work: nat): (nat, nat, nat) {
    match l
    case Select => (5, 0, 0)
    case Events(o, f) => (4, 0, 6 * o + if f then 5 else 0)
    case Reading(o) => (4, 0, 6 * o + 4)
    case DecLock(o) => (4, 0, 6 * o + 3)
    case Decrementing(o) => (4, 0, 6 * o + 2)
    case DecRelease(o) => (4, 0, 6 * o + 1)
    case Running(_) => (3, work, 2)
    case Drain => (3, work, 1)
    case Getting => (3, work, 0)
    case Timeouts => (2, 0, 0)
    case StopCheck => (1, 0, 0)
    case Closing => (0, 0, 1)
    case Exited => (0, 0, 0)
  }

  predicate Nearer(a: (nat, nat, nat), b: (nat, nat, nat)) {
    a.0 < b.0 || (a.0 == b.0 && (a.1 < b.1 || (a.1 == b.1 && a.2 < b.2)))
  }

  /** Every move of a stopping loop brings it nearer to its end. */
  lemma StoppingLoopGetsNearer(s: State, others: nat, fd: bool)
    requires s.stop && Enabled(s, LoopMove(others, fd))
    ensures var r := Looped(s, others, fd); Nearer(StopRank(r.loop, Work(r)), StopRank(s.loop, Work(s)))
  {
    hide Work;
    StopLimitsWork(s, LoopMove(others, fd));
    var r := Looped(s, others, fd);
    NextPlace(s, others, fd, Work(s), Work(r));
  }

  lemma NextPlace(s: State, others: nat, fd: bool, before: nat, after: nat)
    requires s.stop && LoopEnabled(s, others, fd)
    requires after == if s.loop.Getting? then before - 1 else before
    ensures Nearer(StopRank(Looped(s, others, fd).loop, after), StopRank(s.loop, before))
  {
    var l := Looped(s, others, fd).loop;
    match s.loop {
      case Events(o, f) => assert l == if fd then Reading(o) else if o > 0 then Events(o - 1, f) else Drain;
      case Reading(o) => assert l == DecLock(o);
      case DecLock(o) => assert l == Decrementing(o);
      case Decrementing(o) => assert l == DecRelease(o);
      case DecRelease(o) => assert l == Events(o, false);
      case _ =>
    }
  }
}
