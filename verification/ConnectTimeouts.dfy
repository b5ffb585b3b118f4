/** Connect deadlines against the clock: how long `select` may wait, which entries a timeout
    pass removes, and how late an entry can be when it is noticed.  Clocks are integer
    milliseconds; `select` is told whole seconds. */
module ConnectTimeouts {

  type Fd = nat

  datatype Wait = Forever | Seconds(n: nat)

  /** Debug logging makes the loop wake up at intervals (PY_NETTY_DEBUG_INTERVAL_MILLIS). */
  datatype Config = Config(debug: bool, interval: int)

  function Max(a: int, b: int): int { if a < b then b else a }

  ghost predicate IsEarliest(due: map<Fd, int>, t: int) {
    (exists fd :: fd in due && due[fd] == t) && (forall fd :: fd in due ==> t <= due[fd])
  }

  /** The entries of the nearest deadline exist: a finite map has a least value. */
  lemma {:induction false} EarliestExists(due: map<Fd, int>) returns (t: int)
    requires due != map[]
    ensures IsEarliest(due, t)
    decreases |due|
  {
    var fd :| fd in due;
    t := due[fd];
    var rest := due - {fd};
    if rest != map[] {
      assert |rest| < |due| by { assert due.Keys == rest.Keys + {fd}; }
      var u := EarliestExists(rest);
      if u < t { t := u; }
      assert forall g :: g in due ==> g == fd || g in rest;
    } else {
      assert forall g :: g in due && g != fd ==> g in rest;
    }
  }

  /** _millis_to_wait_for_connect_timeout, given the nearest deadline. */
  function MillisToWait(due: map<Fd, int>, earliest: int, now: int): int {
    if due == map[] then -1 else Max(0, earliest - now)
  }

  /** _poll_timeout: milliseconds are truncated to seconds, but never to less than one. */
  function PollTimeout(due: map<Fd, int>, earliest: int, now: int, config: Config): Wait {
    var wait := MillisToWait(due, earliest, now);
    var millis :=
      if !config.debug then wait
      else if wait < 0 then config.interval
      else if config.interval < wait then config.interval else wait;
    if millis < 0 then Forever else Seconds(Max(1, millis / 1000))
  }

  /** The entries a timeout pass at `now` acts on. */
  function Overdue(due: map<Fd, int>, now: int): set<Fd> {
    set fd | fd in due && due[fd] <= now
  }

  /** `select` may wait for ever although a connect is pending exactly when debug logging is on
      with a negative interval; without pending connects it does so unless a debug interval
      says otherwise. */
  lemma WaitsForever(due: map<Fd, int>, earliest: int, now: int, config: Config)
    requires due != map[] ==> IsEarliest(due, earliest)
    ensures PollTimeout(due, earliest, now, config) == Forever
            <==> if due != map[] then config.debug && config.interval < 0 else !config.debug || config.interval < 0
  {
  }

  /** Otherwise the wait is the largest number of whole seconds that does not pass the nearest
      deadline, or the debug interval if that is shorter, but never less than one second. */
  lemma WaitsWholeSeconds(due: map<Fd, int>, earliest: int, now: int, config: Config)
    requires due != map[] && IsEarliest(due, earliest) && !(config.debug && config.interval < 0)
    ensures var w := PollTimeout(due, earliest, now, config);
            var left := if config.debug && config.interval < earliest - now then config.interval else earliest - now;
            w.Seconds? && 1 <= w.n && 1000 * w.n <= Max(1000, left) < 1000 * (w.n + 1)
  {
  }

  // ---- one turn of the loop ----

  /** The pending deadlines right after a timeout pass, and when that pass read the clock. */
  datatype Pending = Pending(due: map<Fd, int>, clock: int)

  /** From one timeout pass to the next: `poll` reads the clock to compute the timeout, select
      returns at `wake`, at most `late` after its timeout; handlers and tasks then remove and
      register channels; `pass` is the clock of the next pass. */
  datatype Turn = Turn(poll: int, wake: int, late: nat, removed: set<Fd>, registered: map<Fd, Registration>, pass: int)

  datatype Registration = Registration(at: int, timeout: int)

  function DueOf(registered: map<Fd, Registration>): map<Fd, int> {
    map fd | fd in registered :: registered[fd].at + registered[fd].timeout
  }

  /** The entries the next pass looks at. */
  function Looked(s: Pending, turn: Turn): map<Fd, int> { (s.due - turn.removed) + DueOf(turn.registered) }

  function Next(s: Pending, turn: Turn): Pending {
    Pending(Looked(s, turn) - Overdue(Looked(s, turn), turn.pass), turn.pass)
  }

  /** Time moves on, select returns in time, and everything that is not waiting in select
      takes at most `slack` milliseconds. */
  ghost predicate Possible(s: Pending, turn: Turn, config: Config, slack: nat) {
    && s.clock <= turn.poll <= turn.wake <= turn.pass
    && (forall fd :: fd in turn.registered ==> turn.wake <= turn.registered[fd].at <= turn.pass)
    && (turn.poll - s.clock) + turn.late + (turn.pass - turn.wake) <= slack
    && (forall t :: (s.due != map[] ==> IsEarliest(s.due, t)) ==>
          var w := PollTimeout(s.due, t, turn.poll, config);
          w.Seconds? ==> turn.wake <= turn.poll + 1000 * w.n + turn.late)
  }

  ghost predicate AllAhead(s: Pending) { forall fd :: fd in s.due ==> s.clock < s.due[fd] }

  /** Every entry a pass looks at is late by less than a second plus the slack; an entry registered
      in this very turn by no more than its own timeout allows. */
  ghost predicate InTime(s: Pending, turn: Turn, slack: nat) {
    forall fd :: fd in Looked(s, turn) ==>
      var late := turn.pass - Looked(s, turn)[fd];
      if fd in turn.registered then late <= slack - turn.registered[fd].timeout else late < 1000 + slack
  }

  /** The pass removes no entry before its deadline and keeps none after it. */
  ghost predicate NoneEarly(s: Pending, turn: Turn) {
    forall fd :: fd in Looked(s, turn) ==> (fd in Next(s, turn).due <==> turn.pass < Looked(s, turn)[fd])
  }

  lemma TurnInTime(s: Pending, turn: Turn, config: Config, slack: nat)
    requires AllAhead(s) && Possible(s, turn, config, slack)
    requires !(config.debug && config.interval < 0)
    ensures InTime(s, turn, slack)
    ensures AllAhead(Next(s, turn)) && NoneEarly(s, turn)
  {
    forall fd | fd in Looked(s, turn) && fd !in turn.registered
      ensures turn.pass - Looked(s, turn)[fd] < 1000 + slack
    {
      var t := EarliestExists(s.due);
      WaitsForever(s.due, t, turn.poll, config);
      var w := PollTimeout(s.due, t, turn.poll, config);
      assert s.clock < t <= s.due[fd];
      assert 1000 * w.n <= Max(1000, Max(0, t - turn.poll));
    }
  }

  // ---- whole runs ----

  ghost function Run(s: Pending, turns: seq<Turn>): Pending
    decreases |turns|
  {
    if turns == [] then s else Next(Run(s, turns[..|turns| - 1]), turns[|turns| - 1])
  }

  ghost predicate PossibleRun(s: Pending, turns: seq<Turn>, config: Config, slack: nat) {
    forall i :: 0 <= i < |turns| ==> Possible(Run(s, turns[..i]), turns[i], config, slack)
  }

  /** Deadlines are met over every run, with any registrations, removals and early wake-ups. */
  lemma {:induction false} DeadlinesAreMet(s: Pending, turns: seq<Turn>, config: Config, slack: nat)
    requires AllAhead(s) && PossibleRun(s, turns, config, slack)
    requires !(config.debug && config.interval < 0)
    ensures AllAhead(Run(s, turns))
    ensures forall i :: 0 <= i < |turns| ==>
              InTime(Run(s, turns[..i]), turns[i], slack) && NoneEarly(Run(s, turns[..i]), turns[i])
    decreases |turns|
  {
    hide Run, Possible, InTime, AllAhead, NoneEarly;
    assert turns == [] ==> Run(s, turns) == s by { RunNone(s); }
    if turns != [] {
      var k := |turns| - 1;
      var before := turns[..k];
      PossibleBefore(s, turns, config, slack);
      DeadlinesAreMet(s, before, config, slack);
      assert Possible(Run(s, turns[..k]), turns[k], config, slack);
      TurnInTime(Run(s, before), turns[k], config, slack);
      RunLast(s, turns);
      forall i | 0 <= i < |turns|
        ensures InTime(Run(s, turns[..i]), turns[i], slack) && NoneEarly(Run(s, turns[..i]), turns[i])
      {
        if i < k { assert before[..i] == turns[..i]; }
      }
    }
  }

  lemma RunNone(s: Pending)
    ensures Run(s, []) == s
  {
  }

  lemma RunLast(s: Pending, turns: seq<Turn>)
    requires turns != []
    ensures Run(s, turns) == Next(Run(s, turns[..|turns| - 1]), turns[|turns| - 1])
  {
  }

  lemma PossibleBefore(s: Pending, turns: seq<Turn>, config: Config, slack: nat)
    requires PossibleRun(s, turns, config, slack) && turns != []
    ensures PossibleRun(s, turns[..|turns| - 1], config, slack)
  {
    hide Run, Possible;
    var before := turns[..|turns| - 1];
    forall i | 0 <= i < |before| ensures Possible(Run(s, before[..i]), before[i], config, slack) {
      assert before[..i] == turns[..i];
    }
  }

  /** The bound cannot be lowered: with no processing time at all, a deadline one
      millisecond ahead is noticed 999 milliseconds late. */
  lemma BoundIsTight(fd: Fd)
    ensures var s, turn := Pending(map[fd := 1], 0), Turn(0, 1000, 0, {}, map[], 1000);
            && AllAhead(s) && Possible(s, turn, Config(false, 60000), 0)
            && fd in Looked(s, turn) && turn.pass - Looked(s, turn)[fd] == 999
  {
    var s, turn := Pending(map[fd := 1], 0), Turn(0, 1000, 0, {}, map[], 1000);
    assert fd in s.due;
  }

  /** With a negative debug interval nothing bounds the delay: for any n the loop may
      notice an entry n milliseconds late. */
  lemma UnboundedDelay(fd: Fd, n: nat)
    ensures var s, turn := Pending(map[fd := 1], 0), Turn(0, n + 1, 0, {}, map[], n + 1);
            && AllAhead(s) && Possible(s, turn, Config(true, -1), 0)
            && fd in Looked(s, turn) && turn.pass - Looked(s, turn)[fd] == n
  {
    var s := Pending(map[fd := 1], 0);
    assert fd in s.due;
  }
}
