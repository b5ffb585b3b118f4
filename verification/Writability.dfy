/** Back-pressure: the writability flag of a channel and its two water marks. */
module Writability {

  /** The flag after _check_writability saw `pending` queued bytes. */
  function Next(low: int, high: int, writable: bool, pending: int): bool {
    if pending >= high then false
    else if pending <= low then true
    else writable
  }

  /** The flag after a sequence of checks on a fresh channel. */
  function After(low: int, high: int, checks: seq<int>): bool {
    if checks == [] then true
    else Next(low, high, After(low, high, checks[..|checks| - 1]), checks[|checks| - 1])
  }

  /** The change events those checks fire; each carries the new value of the flag. */
  function Changes(low: int, high: int, checks: seq<int>): seq<bool> {
    if checks == [] then []
    else
      var before := checks[..|checks| - 1];
      var w := After(low, high, checks);
      Changes(low, high, before) + if w == After(low, high, before) then [] else [w]
  }

  /** Check i saw at least the high mark and no later one saw the queue calm down. */
  predicate Blocks(low: int, high: int, checks: seq<int>, i: nat) {
    && i < |checks|
    && checks[i] >= high
    && forall j :: i < j < |checks| ==> checks[j] > low || checks[j] >= high
  }

  /** Hysteresis, exactly, for any two marks: unwritable if and only if some check saw
      the high mark and none since saw at most the low mark (and less than the high one). */
  lemma {:induction false} Hysteresis(low: int, high: int, checks: seq<int>)
    ensures !After(low, high, checks) <==> exists i: nat :: Blocks(low, high, checks, i)
  {
    if checks != [] {
      var n := |checks| - 1;
      var before := checks[..n];
      Hysteresis(low, high, before);
      if checks[n] >= high {
        assert Blocks(low, high, checks, n);
      } else if !After(low, high, checks) {
        var i: nat :| Blocks(low, high, before, i);
        assert Blocks(low, high, checks, i);
      } else if i: nat :| Blocks(low, high, checks, i) {
        assert Blocks(low, high, before, i);
      }
    }
  }

  /** With the low mark below the high mark the side condition disappears. */
  lemma HysteresisOrdered(low: int, high: int, checks: seq<int>)
    requires low < high
    ensures !After(low, high, checks) <==>
            exists i :: 0 <= i < |checks| && checks[i] >= high
                        && forall j :: i < j < |checks| ==> checks[j] > low
  {
    Hysteresis(low, high, checks);
  }

  /** The events strictly alternate, start with "not writable" and end at the flag. */
  lemma {:induction false} ChangesAlternate(low: int, high: int, checks: seq<int>)
    ensures var e := Changes(low, high, checks);
            && (forall i :: 0 <= i < |e| ==> e[i] == (i % 2 == 1))
            && After(low, high, checks) == (|e| % 2 == 0)
  {
    if checks != [] {
      ChangesAlternate(low, high, checks[..|checks| - 1]);
    }
  }
}
