/** The wake-up descriptor as an object: what one unsafe_write or unsafe_read does when no other
    thread comes between, and that the interleaved protocol does just that. */
module EventFds {
  import opened WakeUp

  datatype Value = Value(counts: int, pipe: nat, closed: bool)

  class BaseEventFD {
    var counts: int   // _unsafe_counts
    var pipe: nat     // bytes written and not yet read
    var closed: bool

    constructor ()
      ensures Valid() && Get() == Value(0, 0, false)
    {
      counts, pipe, closed := 0, 0, false;
    }

    function Get(): Value
      reads this
    {
      Value(counts, pipe, closed)
    }

    /** With nobody in between, the counter is the number of bytes in the pipe. */
    predicate Valid()
      reads this
    {
      !closed ==> 0 <= counts == pipe <= 1
    }

    /** Any number of writes leave one byte. */
    method UnsafeWrite()
      requires Valid()
      modifies this`counts, this`pipe
      ensures Valid() && Get() == if closed then old(Get()) else Value(1, 1, false)
    {
      if closed { return; }
      if counts > 0 { return; }
      pipe := pipe + 1;
      counts := counts + 1;
    }

    /** Reading blocks on an empty pipe. */
    method UnsafeRead()
      requires Valid() && (closed || pipe > 0)
      modifies this`counts, this`pipe
      ensures Valid() && Get() == if closed then old(Get()) else Value(0, 0, false)
    {
      if closed { return; }
      pipe := pipe - 1;
      counts := counts - 1;
    }

    method Close()
      modifies this`closed
      ensures Valid() && Get() == old(Get()).(closed := true)
    {
      closed := true;
    }
  }

  function ValueOf(s: State): Value { Value(s.counts, s.pipe, s.closed) }

  /** The call of t run to its end, nobody else moving. */
  function Alone(s: State, t: Thread): State
    requires At(s, t) == Locking ==> s.holder == Nobody
    requires At(s, t) == Putting || At(s, t) == Flagging ==> s.holder == Nobody
    decreases Left(At(s, t))
  {
    if At(s, t) == Idle then s else Alone(Apply(s, Advance(t)), t)
  }

  /** In the protocol an undisturbed interrupt has the effect of UnsafeWrite, also when the loop is
      about to decrement: then the byte it has read stands for this one. */
  lemma UndisturbedWrite(s: State, t: Thread)
    requires Inv(s) && At(s, t) == Locking && s.holder == Nobody
    ensures var r := Alone(s, t);
            && At(r, t) == Idle && r.holder == Nobody && r.loop == s.loop && r.queue == s.queue
            && ValueOf(r) == (if s.closed || s.loop.DecLock? then ValueOf(s) else Value(1, 1, false))
  {
    var a := Apply(s, Advance(t));
    var b := Apply(a, Advance(t));
    var c := Apply(b, Advance(t));
    if !s.closed && s.counts == 0 {
      var d := Apply(c, Advance(t));
      var e := Apply(d, Advance(t));
      assert Alone(c, t) == Alone(d, t) == Alone(e, t) == e;
    }
    assert Alone(s, t) == Alone(a, t) == Alone(b, t) == Alone(c, t);
  }
}
