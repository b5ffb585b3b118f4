/** set_auto_read from several threads.  It tests and assigns the field on the calling thread and
    changes the interest in the loop: at once if the caller is the loop's thread, otherwise in
    a task that is queued after the assignment.  A move is one of these steps. */
module AutoRead {
  import opened Lifecycle

  type Thread = nat

  /** The loop's own thread. */
  const LOOP: Thread := 0

  /** Inside set_auto_read(on). */
  datatype Pc = Idle | Testing(on: bool) | Assigning(on: bool) | Changing(on: bool)

  /** The field, READ interest of a plain TCP channel, and the queued changes of it. */
  datatype Switch = Switch(pc: map<Thread, Pc>, autoRead: bool, read: bool, queue: seq<bool>)

  const START := Switch(map[], true, true, [])

  function At(s: Switch, t: Thread): Pc { if t in s.pc then s.pc[t] else Idle }

  datatype Move = Call(t: Thread, on: bool) | Advance(t: Thread) | RunTask

  predicate Enabled(s: Switch, m: Move) {
    match m
    case Call(t, _) => At(s, t) == Idle
    case Advance(t) => At(s, t) != Idle
    case RunTask => s.queue != [] && At(s, LOOP) == Idle
  }

  function Apply(s: Switch, m: Move): Switch
    requires Enabled(s, m)
  {
    match m
    case Call(t, on) => s.(pc := s.pc[t := Testing(on)])
    case Advance(t) => Advanced(s, t)
    case RunTask => s.(read := s.queue[0], queue := s.queue[1..])
  }

  function Advanced(s: Switch, t: Thread): Switch
    requires At(s, t) != Idle
  {
    match At(s, t)
    case Testing(on) => s.(pc := s.pc[t := if s.autoRead == on then Idle else Assigning(on)])
    case Assigning(on) => s.(autoRead := on, pc := s.pc[t := Changing(on)])
    case Changing(on) =>
      if t == LOOP then s.(read := on, pc := s.pc[t := Idle])
      else s.(queue := s.queue + [on], pc := s.pc[t := Idle])
  }

  ghost predicate Possible(moves: seq<Move>)
    decreases |moves|, 0
  {
    moves == [] || (Possible(moves[..|moves| - 1]) && Enabled(After(moves[..|moves| - 1]), moves[|moves| - 1]))
  }

  ghost function After(moves: seq<Move>): Switch
    requires Possible(moves)
    decreases |moves|, 1
  {
    if moves == [] then START else Apply(After(moves[..|moves| - 1]), moves[|moves| - 1])
  }

  ghost predicate AllIdle(s: Switch) { forall t :: At(s, t) == Idle }

  /** No call is going on and no change is queued. */
  ghost predicate AtRest(s: Switch) { AllIdle(s) && s.queue == [] }

  /** What a caller can see to: every call starts when no other is going on, and one on the loop's
      thread only when no change is queued. */
  ghost predicate Serial(moves: seq<Move>)
    requires Possible(moves)
    decreases |moves|
  {
    moves == [] ||
    var before, m := moves[..|moves| - 1], moves[|moves| - 1];
    Serial(before) && (m.Call? ==> AllIdle(After(before)) && (m.t == LOOP ==> After(before).queue == []))
  }

  /** READ interest once the queued changes have been made. */
  function Settled(s: Switch): bool { if s.queue == [] then s.read else s.queue[|s.queue| - 1] }

  /** At most t is inside a call. */
  ghost predicate Only(s: Switch, t: Thread) { forall u :: u != t ==> At(s, u) == Idle }

  ghost predicate InStep(s: Switch, t: Thread) {
    && Only(s, t)
    && (t == LOOP && At(s, t) != Idle ==> s.queue == [])
    && if At(s, t).Changing? then s.autoRead == At(s, t).on else Settled(s) == s.autoRead
  }

  lemma MoveInStep(s: Switch, m: Move, t: Thread)
    requires InStep(s, t) && Enabled(s, m)
    requires m.Call? ==> AllIdle(s) && (m.t == LOOP ==> s.queue == [])
    ensures InStep(Apply(s, m), if m.Call? then m.t else t)
  {
    if m.Advance? { assert m.t == t; }
    OthersStay(s, m, if m.Call? then m.t else t);
  }

  /** A move leaves the threads that do not make it where they are. */
  lemma OthersStay(s: Switch, m: Move, t: Thread)
    requires Enabled(s, m) && (m.RunTask? || m.t == t)
    requires forall u :: u != t ==> At(s, u) == Idle
    ensures Only(Apply(s, m), t)
  {
    forall u | u != t ensures At(Apply(s, m), u) == Idle { assert At(s, u) == Idle; }
  }

  lemma {:induction false} SerialInStep(moves: seq<Move>) returns (t: Thread)
    requires Possible(moves) && Serial(moves)
    ensures InStep(After(moves), t)
    decreases |moves|
  {
    hide InStep, Apply, Enabled;
    if moves == [] {
      t := LOOP;
      assert InStep(START, t) by { StartInStep(t); }
    } else {
      var m := moves[|moves| - 1];
      var u := SerialInStep(moves[..|moves| - 1]);
      MoveInStep(After(moves[..|moves| - 1]), m, u);
      t := if m.Call? then m.t else u;
    }
  }

  lemma StartInStep(t: Thread)
    ensures InStep(START, t)
  {
  }

  /** Calls made one after another leave READ interest equal to auto-read once everything
      queued has run. */
  lemma SerialCallsAgree(moves: seq<Move>)
    requires Possible(moves) && Serial(moves) && AtRest(After(moves))
    ensures After(moves).read == After(moves).autoRead
  {
    var t := SerialInStep(moves);
  }

  /** In particular when only one thread other than the loop's ever calls. */
  lemma {:induction false} OneCallerIsSerial(moves: seq<Move>, t: Thread)
    requires Possible(moves) && t != LOOP
    requires forall i :: 0 <= i < |moves| && moves[i].Call? ==> moves[i].t == t
    ensures Serial(moves) && Only(After(moves), t)
    decreases |moves|
  {
    if moves != [] {
      var before, m := moves[..|moves| - 1], moves[|moves| - 1];
      OneCallerIsSerial(before, t);
      if m.Advance? { assert m.t == t; }
      OthersStay(After(before), m, t);
    }
  }

  /** A call for the value that auto-read already has ends at its test and changes nothing. */
  lemma SameValueDoesNothing(s: Switch, t: Thread)
    requires At(s, t) == Idle
    ensures var r := Advanced(Apply(s, Call(t, s.autoRead)), t);
            At(r, t) == Idle && r.autoRead == s.autoRead && r.read == s.read && r.queue == s.queue
  {
  }

  // ---- neither half of the condition can be dropped ----

  lemma Snoc(moves: seq<Move>, m: Move)
    requires Possible(moves) && Enabled(After(moves), m)
    ensures Possible(moves + [m]) && After(moves + [m]) == Apply(After(moves), m)
  {
    assert (moves + [m])[..|moves|] == moves;
  }

  /** While a change is queued the two differ, even with a single caller. */
  lemma QueuedChangeDiffers() returns (moves: seq<Move>)
    ensures Possible(moves) && AllIdle(After(moves)) && Serial(moves)
    ensures After(moves).read && !After(moves).autoRead
  {
    hide After, Possible;
    moves := NoMoves();
    moves := Then(moves, Call(1, false));
    moves := Then(moves, Advance(1));
    moves := Then(moves, Advance(1));
    moves := Then(moves, Advance(1));
    OneCallerIsSerial(moves, 1);
  }

  lemma NoMoves() returns (r: seq<Move>)
    ensures r == [] && Possible(r) && After(r) == START
  {
    r := [];
  }

  lemma Then(moves: seq<Move>, m: Move) returns (r: seq<Move>)
    requires Possible(moves) && Enabled(After(moves), m)
    ensures r == moves + [m] && Possible(r) && After(r) == Apply(After(moves), m)
  {
    Snoc(moves, m);
    r := moves + [m];
  }

  /** Two overlapping calls that have both assigned, the one for `true` last. */
  lemma BothAssigned() returns (moves: seq<Move>)
    ensures Possible(moves)
    ensures var s := After(moves);
            && s.autoRead && s.queue == [] && At(s, 1) == Changing(false) && At(s, 2) == Changing(true)
            && (forall u :: u != 1 && u != 2 ==> At(s, u) == Idle)
  {
    hide After, Possible;
    moves := NoMoves();
    moves := Then(moves, Call(1, false));
    moves := Then(moves, Advance(1));
    moves := Then(moves, Advance(1));
    moves := Then(moves, Call(2, true));
    moves := Then(moves, Advance(2));
    moves := Then(moves, Advance(2));
  }

  /** If the one that assigned first queues its change last, auto-read stays on without READ
      interest. */
  lemma OverlapBreaks() returns (moves: seq<Move>)
    ensures Possible(moves) && AtRest(After(moves))
    ensures After(moves).autoRead && !After(moves).read
  {
    hide After, Possible;
    moves := BothAssigned();
    var s := After(moves);
    assert At(s, LOOP) == Idle;
    moves := Then(moves, Advance(2));
    moves := Then(moves, Advance(1));
    moves := Then(moves, RunTask);
    moves := Then(moves, RunTask);
    forall u ensures At(After(moves), u) == Idle { assert u != 1 && u != 2 ==> At(s, u) == Idle; }
  }

  /** Two calls one after the other, the second on the loop's thread before the change of the
      first has run: it overtakes that change, with the same result. */
  lemma LoopOvertakes() returns (moves: seq<Move>)
    ensures Possible(moves) && AtRest(After(moves))
    ensures After(moves).autoRead && !After(moves).read
  {
    hide After, Possible;
    moves := NoMoves();
    moves := Then(moves, Call(1, false));
    moves := Then(moves, Advance(1));
    moves := Then(moves, Advance(1));
    moves := Then(moves, Advance(1));
    moves := Then(moves, Call(LOOP, true));
    moves := Then(moves, Advance(LOOP));
    moves := Then(moves, Advance(LOOP));
    moves := Then(moves, Advance(LOOP));
    moves := Then(moves, RunTask);
  }

  // ---- the channel ----

  datatype Effect = None | Some(action: Action)

  /** What a move does to a channel. */
  function EffectOf(s: Switch, m: Move): Effect
    requires Enabled(s, m)
  {
    match m
    case Call(_, _) => None
    case Advance(t) =>
      if At(s, t).Assigning? then Some(AssignAutoRead(At(s, t).on))
      else if At(s, t).Changing? && t == LOOP then Some(ChangeRead(At(s, t).on))
      else None
    case RunTask => Some(ChangeRead(s.queue[0]))
  }

  ghost function Effects(moves: seq<Move>): seq<Action>
    requires Possible(moves)
    decreases |moves|
  {
    if moves == [] then []
    else
      var before := moves[..|moves| - 1];
      var e := EffectOf(After(before), moves[|moves| - 1]);
      Effects(before) + if e.None? then [] else [e.action]
  }

  /** The actions of a channel's run that are for auto-read. */
  function ForAutoReadOnly(actions: seq<Action>): seq<Action> {
    if actions == [] then []
    else (if ForAutoRead(actions[0]) then [actions[0]] else []) + ForAutoReadOnly(actions[1..])
  }

  lemma {:induction false} WishesOfThose(w: Wishes, actions: seq<Action>)
    ensures WishesAfter(w, actions) == WishesAfter(w, ForAutoReadOnly(actions))
    decreases |actions|
  {
    if actions != [] {
      WishesOfThose(Wish(w, actions[0]), actions[1..]);
      if ForAutoRead(actions[0]) {
        assert ([actions[0]] + ForAutoReadOnly(actions[1..]))[1..] == ForAutoReadOnly(actions[1..]);
      } else {
        assert [] + ForAutoReadOnly(actions[1..]) == ForAutoReadOnly(actions[1..]);
      }
    }
  }

  lemma {:induction false} WishesMore(w: Wishes, actions: seq<Action>, a: Action)
    ensures WishesAfter(w, actions + [a]) == Wish(WishesAfter(w, actions), a)
    decreases |actions|
  {
    hide Wish;
    if actions == [] {
      assert [] + [a] == [a] && [a][1..] == [];
    } else {
      assert (actions + [a])[1..] == actions[1..] + [a];
      WishesMore(Wish(w, actions[0]), actions[1..], a);
    }
  }

  lemma {:induction false} EffectsAreWishes(moves: seq<Move>)
    requires Possible(moves)
    ensures WishesAfter(Wishes(true, true), Effects(moves)) == Wishes(After(moves).autoRead, After(moves).read)
    decreases |moves|
  {
    if moves != [] {
      var before, m := moves[..|moves| - 1], moves[|moves| - 1];
      EffectsAreWishes(before);
      var e := EffectOf(After(before), m);
      if e.None? {
        assert Effects(before) + [] == Effects(before);
      } else {
        WishesMore(Wishes(true, true), Effects(before), e.action);
      }
    }
  }

  /** Over every run of a plain TCP channel, with any other actions in between: READ interest and
      auto-read are those of the interleaved calls, and so agree at rest if these were serial. */
  lemma ReadsAsAutoReadSays(moves: seq<Move>, low: int, high: int, actions: seq<Action>)
    requires Possible(moves) && 0 <= low < high && ForAutoReadOnly(actions) == Effects(moves)
    ensures var r := Life(false, low, high, actions);
            && r.autoRead == After(moves).autoRead
            && (!r.closed ==> r.flag.read == After(moves).read)
            && (!r.closed && Serial(moves) && AtRest(After(moves)) ==> r.flag.read == r.autoRead)
  {
    NoStrandedWriter(false, low, high, actions);
    RegisterKeeps(false, low, high);
    RunWishes(Register(false, low, high), actions);
    WishesOfThose(Wishes(true, true), actions);
    EffectsAreWishes(moves);
    if Serial(moves) && AtRest(After(moves)) { SerialCallsAgree(moves); }
  }
}
