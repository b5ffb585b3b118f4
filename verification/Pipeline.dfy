/** The outbound half of one channel, as values.

    A channel keeps a list of chunks that the kernel has not taken yet.  Beside
    the fields of the program, `Pipe` carries two histories: `accepted`, every
    chunk the application ever handed over, and `wire`, every byte the kernel
    ever took.  The functions follow `write`, `close_gracefully`, the writable
    pass and `fail_pendings`; the lemmas say what holds after any run of them.
*/
module Pipeline {

  type byte = b: int | 0 <= b < 256

  datatype Outcome = Unset | Success | Failed

  /** A chunk: bytes still to be sent, or the marker that a graceful close queues. */
  datatype Entry = Entry(buffer: seq<byte>, close: bool)

  datatype Pipe = Pipe(
    accepted: seq<Entry>,
    wire: seq<byte>,
    pendings: seq<Entry>,
    pendingBytes: int,
    outcomes: seq<Outcome>,  // the future of accepted[i]; a marker shares the close future
    open: bool,
    settled: nat)            // how many accepted chunks the last close has dealt with

  const EMPTY := Pipe([], [], [], 0, [], true, 0)

  /** All bytes of a list of chunks, in order. */
  function Data(q: seq<Entry>): seq<byte> {
    if q == [] then [] else q[0].buffer + Data(q[1..])
  }

  /** The bytes queued before the first close marker. */
  function Sendable(q: seq<Entry>): nat {
    if q == [] || q[0].close then 0 else |q[0].buffer| + Sendable(q[1..])
  }

  /** The simple drain: take n bytes off the front, stopping at a close marker. */
  function Drop(q: seq<Entry>, n: nat): seq<Entry> {
    if q == [] || q[0].close then q
    else if n >= |q[0].buffer| then Drop(q[1..], n - |q[0].buffer|)
    else [q[0].(buffer := q[0].buffer[n..])] + q[1..]
  }

  function Min(a: nat, b: nat): nat { if a < b then a else b }

  predicate AtMarker(q: seq<Entry>) { q != [] && q[0].close }

  predicate HasMarker(q: seq<Entry>) { exists i :: 0 <= i < |q| && q[i].close }

  /** What add_pending keeps: markers carry no bytes, data chunks at least one. */
  predicate WellFormed(e: Entry) { e.close <==> e.buffer == [] }

  // ---- the operations ----

  /** Futures from..to - 1 succeed. */
  function Resolve(outcomes: seq<Outcome>, from: nat, to: nat): seq<Outcome>
    requires from <= to <= |outcomes|
  {
    seq(|outcomes|, i requires 0 <= i < |outcomes| => if from <= i < to then Success else outcomes[i])
  }

  /** add_pending for a chunk that it does not discard. */
  function Append(p: Pipe, e: Entry): Pipe {
    p.(accepted := p.accepted + [e],
       pendings := p.pendings + [e],
       pendingBytes := p.pendingBytes + |e.buffer|,
       outcomes := p.outcomes + [Unset])
  }

  /** The kernel takes n queued bytes; the futures of finished chunks succeed. */
  function Flush(p: Pipe, n: nat): (r: Pipe)
    requires n <= Sendable(p.pendings)
    requires |p.pendings| <= |p.accepted| == |p.outcomes|
    ensures |r.pendings| <= |r.accepted| == |r.outcomes|
  {
    SendableWithinData(p.pendings);
    DropLength(p.pendings, n);
    var rest := Drop(p.pendings, n);
    var before, after := |p.accepted| - |p.pendings|, |p.accepted| - |rest|;
    p.(wire := p.wire + Data(p.pendings)[..n],
       pendings := rest,
       pendingBytes := p.pendingBytes - n,
       outcomes := Resolve(p.outcomes, before, after))
  }

  /** Closing: fail_pendings fails every queued data future and empties the queue. */
  function Shut(p: Pipe): Pipe
    requires |p.accepted| == |p.outcomes|
  {
    p.(pendings := [], pendingBytes := 0, open := false, settled := |p.accepted|,
       outcomes := seq(|p.outcomes|, i requires 0 <= i < |p.outcomes| =>
         if p.outcomes[i] == Unset && !p.accepted[i].close then Failed else p.outcomes[i]))
  }

  /** write: `active` is is_active(), `offer` how much the kernel would take now. */
  function Write(p: Pipe, active: bool, data: seq<byte>, offer: nat): Pipe
    requires |p.pendings| <= |p.accepted| == |p.outcomes|
  {
    if data == [] then p
    else if active && p.pendings == [] then
      var n := Min(offer, |data|);
      var rest := if n == |data| then [] else [Entry(data[n..], false)];
      p.(accepted := p.accepted + [Entry(data, false)],
         wire := p.wire + data[..n],
         pendings := rest,
         pendingBytes := p.pendingBytes + |data| - n,
         outcomes := p.outcomes + [if n == |data| then Success else Unset])
    else Append(p, Entry(data, false))
  }

  /** close_gracefully on a client channel. */
  function CloseGracefully(p: Pipe, active: bool): Pipe {
    if active then Append(p, Entry([], true)) else p
  }

  /** One writable pass in which the kernel takes up to `offer` bytes. */
  function Pass(p: Pipe, offer: nat): Pipe
    requires |p.pendings| <= |p.accepted| == |p.outcomes|
  {
    CloseAtMarker(Flush(p, Min(offer, Sendable(p.pendings))))
  }

  /** A close chunk at the head of the queue closes the channel. */
  function CloseAtMarker(p: Pipe): Pipe
    requires |p.accepted| == |p.outcomes|
  {
    if AtMarker(p.pendings) then Shut(p) else p
  }

  // ---- what every operation keeps ----

  /** The future of accepted[i], read off the number of bytes sent: it has
      succeeded exactly when its last byte is on the wire. */
  function ExpectedOutcome(p: Pipe, i: nat): Outcome
    requires i < |p.accepted|
  {
    if p.accepted[i].close then Unset
    else if |Data(p.accepted[..i + 1])| <= |p.wire| then Success
    else if i < p.settled then Failed
    else Unset
  }

  /** The bytes: what is queued is what the simple drain leaves of everything accepted. */
  ghost predicate Stream(p: Pipe) {
    && p.pendingBytes == |Data(p.pendings)|
    && |p.wire| <= Sendable(p.accepted)
    && p.wire <= Data(p.accepted)
    && (p.open ==> p.settled == 0 && p.pendings == Drop(p.accepted, |p.wire|))
    && (!p.open ==> p.settled <= |p.accepted| && p.pendings == p.accepted[p.settled..]
                    && |p.wire| <= |Data(p.accepted[..p.settled])|)
  }

  /** The futures. */
  ghost predicate Decided(p: Pipe) {
    && |p.outcomes| == |p.accepted|
    && forall i :: 0 <= i < |p.accepted| ==> p.outcomes[i] == ExpectedOutcome(p, i)
  }

  ghost predicate AllWellFormed(q: seq<Entry>) {
    forall i :: 0 <= i < |q| ==> WellFormed(q[i])
  }

  ghost predicate Inv(p: Pipe) {
    AllWellFormed(p.accepted) && Decided(p) && Stream(p)
  }

  // ---- lists of chunks ----

  lemma {:induction false} DataConcat(a: seq<Entry>, b: seq<Entry>)
    ensures Data(a + b) == Data(a) + Data(b)
  {
    if a == [] {
      assert a + b == b;
    } else {
      assert (a + b)[1..] == a[1..] + b;
      DataConcat(a[1..], b);
    }
  }

  lemma {:induction false} SendableWithinData(q: seq<Entry>)
    ensures Sendable(q) <= |Data(q)|
  {
    if q != [] && !q[0].close { SendableWithinData(q[1..]); }
  }

  lemma {:induction false} DropLength(q: seq<Entry>, n: nat)
    ensures |Drop(q, n)| <= |q|
  {
    if q != [] && !q[0].close && n >= |q[0].buffer| { DropLength(q[1..], n - |q[0].buffer|); }
  }

  /** Draining removes exactly the first n bytes, and what is left can still go out. */
  lemma {:induction false} DropData(q: seq<Entry>, n: nat)
    requires n <= Sendable(q)
    ensures Sendable(q) <= |Data(q)|
    ensures Data(Drop(q, n)) == Data(q)[n..]
    ensures Sendable(Drop(q, n)) == Sendable(q) - n
  {
    SendableWithinData(q);
    if q != [] && !q[0].close {
      var m := |q[0].buffer|;
      if n >= m {
        DropData(q[1..], n - m);
      } else {
        var t := q[0].(buffer := q[0].buffer[n..]);
        assert ([t] + q[1..])[1..] == q[1..];
      }
    }
  }

  /** Two drains in a row are one: how the bytes are split into sends does not matter. */
  lemma {:induction false} DropDrop(q: seq<Entry>, m: nat, n: nat)
    requires m + n <= Sendable(q)
    ensures Drop(Drop(q, m), n) == Drop(q, m + n)
  {
    if q != [] && !q[0].close {
      var k := |q[0].buffer|;
      if m >= k {
        DropDrop(q[1..], m - k, n);
      } else {
        var t := q[0].(buffer := q[0].buffer[m..]);
        assert ([t] + q[1..])[1..] == q[1..];
        if n < k - m {
          assert q[0].buffer[m..][n..] == q[0].buffer[m + n..];
        }
      }
    }
  }

  lemma {:induction false} DropAppend(q: seq<Entry>, e: Entry, n: nat)
    requires WellFormed(e)
    requires n <= Sendable(q)
    ensures Drop(q + [e], n) == Drop(q, n) + [e]
    ensures Sendable(q) <= Sendable(q + [e])
  {
    if q == [] {
      assert q + [e] == [e];
      if !e.close { assert e.buffer[0..] == e.buffer; }
    } else if !q[0].close {
      assert (q + [e])[1..] == q[1..] + [e];
      if n >= |q[0].buffer| {
        DropAppend(q[1..], e, n - |q[0].buffer|);
      } else {
        DropAppend(q[1..], e, 0);
        assert ([q[0].(buffer := q[0].buffer[n..])] + q[1..]) + [e]
            == [q[0].(buffer := q[0].buffer[n..])] + (q[1..] + [e]);
      }
    } else {
      assert (q + [e])[1..] == q[1..] + [e];
    }
  }

  /** Which chunks a drain finishes: those whose last byte is among the n taken. */
  lemma {:induction false} DropCompletes(q: seq<Entry>, n: nat, i: nat)
    requires AllWellFormed(q)
    requires n <= Sendable(q) && i < |q|
    ensures |Drop(q, n)| <= |q|
    ensures i < |q| - |Drop(q, n)| <==> !q[i].close && |Data(q[..i + 1])| <= n
  {
    DropLength(q, n);
    assert q[..i + 1][1..] == q[1..][..i];
    if q[0].close {
      if !q[i].close {
        DataSplitsAt(q, i);
      }
    } else if n >= |q[0].buffer| {
      DropLength(q[1..], n - |q[0].buffer|);
      if i > 0 {
        DropCompletes(q[1..], n - |q[0].buffer|, i - 1);
      }
    }
  }

  lemma DataSplitsAt(q: seq<Entry>, i: nat)
    requires i < |q|
    ensures Data(q[..i + 1]) == Data(q[..i]) + q[i].buffer
  {
    assert q[..i + 1] == q[..i] + [q[i]];
    DataConcat(q[..i], [q[i]]);
    assert Data([q[i]]) == q[i].buffer + Data([]);
  }

  lemma DataPrefix(q: seq<Entry>, i: nat)
    requires i <= |q|
    ensures Data(q[..i]) <= Data(q)
  {
    assert q == q[..i] + q[i..];
    DataConcat(q[..i], q[i..]);
  }

  // ---- each operation keeps the invariant ----

  lemma Bounds(p: Pipe)
    requires Stream(p)
    ensures |p.pendings| <= |p.accepted|
  {
    DropLength(p.accepted, |p.wire|);
  }

  lemma Sizes(p: Pipe)
    requires Inv(p)
    ensures |p.pendings| <= |p.accepted| == |p.outcomes|
  {
    Bounds(p);
  }

  /** While the channel is open nothing is lost, duplicated or reordered: what was
      sent followed by what is queued is what was accepted. */
  lemma StreamIntegrity(p: Pipe)
    requires Stream(p)
    ensures p.wire <= Data(p.accepted)
    ensures p.open ==> p.wire + Data(p.pendings) == Data(p.accepted)
  {
    if p.open {
      DropData(p.accepted, |p.wire|);
      PrefixAndRest(p.wire, Data(p.accepted));
    }
  }

  lemma PrefixAndRest(w: seq<byte>, d: seq<byte>)
    requires w <= d
    ensures w + d[|w|..] == d
  {
  }

  lemma TakePrefix(w: seq<byte>, d: seq<byte>, n: nat)
    requires n <= |d|
    ensures w + d[..n] <= w + d
  {
  }

  /** The queued chunks are the last ones accepted, and the first of them may be trimmed. */
  lemma CompletedPrefix(p: Pipe, i: nat)
    requires Inv(p) && p.open && i < |p.accepted|
    ensures |p.pendings| <= |p.accepted|
    ensures p.outcomes[i] == Success <==> i < |p.accepted| - |p.pendings|
  {
    DropCompletes(p.accepted, |p.wire|, i);
  }

  lemma ExpectedOutcomeLater(p: Pipe, r: Pipe, i: nat)
    requires i < |p.accepted| && p.accepted <= r.accepted
    requires p.settled == r.settled && |p.wire| == |r.wire|
    ensures ExpectedOutcome(p, i) == ExpectedOutcome(r, i)
  {
    assert p.accepted[..i + 1] == r.accepted[..i + 1];
  }

  lemma AppendDecided(p: Pipe, e: Entry)
    requires Inv(p) && WellFormed(e)
    ensures Decided(Append(p, e))
  {
    var r, k := Append(p, e), |p.accepted|;
    forall i | 0 <= i < |r.accepted| ensures r.outcomes[i] == ExpectedOutcome(r, i) {
      if i < k {
        ExpectedOutcomeLater(p, r, i);
      } else if !e.close {
        DataSplitsAt(r.accepted, k);
        assert r.accepted[..k] == p.accepted;
      }
    }
  }

  lemma AppendStream(p: Pipe, e: Entry)
    requires Stream(p) && WellFormed(e)
    ensures Stream(Append(p, e))
  {
    var r := Append(p, e);
    DataConcat(p.accepted, [e]);
    DataConcat(p.pendings, [e]);
    assert Data([e]) == e.buffer;
    DropAppend(p.accepted, e, |p.wire|);
    if !p.open {
      assert r.accepted[..p.settled] == p.accepted[..p.settled];
      assert r.accepted[p.settled..] == p.accepted[p.settled..] + [e];
    }
  }

  lemma AppendKeepsInv(p: Pipe, e: Entry)
    requires Inv(p) && WellFormed(e)
    ensures Inv(Append(p, e))
  {
    AppendDecided(p, e);
    AppendStream(p, e);
  }

  lemma FlushStream(p: Pipe, n: nat)
    requires Stream(p) && p.open && n <= Sendable(p.pendings)
    requires |p.pendings| <= |p.accepted| == |p.outcomes|
    ensures |Flush(p, n).wire| == |p.wire| + n && Stream(Flush(p, n))
  {
    var w := |p.wire|;
    DropData(p.accepted, w);
    DropData(p.pendings, n);
    DropDrop(p.accepted, w, n);
    StreamIntegrity(p);
    TakePrefix(p.wire, Data(p.pendings), n);
  }

  lemma FlushDecided(p: Pipe, n: nat)
    requires AllWellFormed(p.accepted) && Decided(p) && p.open && p.settled == 0
    requires |p.wire| + n <= Sendable(p.accepted) && n <= Sendable(p.pendings)
    requires p.pendings == Drop(p.accepted, |p.wire|) && |p.pendings| <= |p.accepted|
    requires |Flush(p, n).wire| == |p.wire| + n
    ensures Decided(Flush(p, n))
  {
    var r, w := Flush(p, n), |p.wire|;
    DropDrop(p.accepted, w, n);
    forall i | 0 <= i < |r.accepted| ensures r.outcomes[i] == ExpectedOutcome(r, i) {
      DropCompletes(p.accepted, w, i);
      DropCompletes(p.accepted, w + n, i);
    }
  }

  lemma FlushKeepsInv(p: Pipe, n: nat)
    requires Inv(p) && p.open && n <= Sendable(p.pendings)
    ensures |p.pendings| <= |p.accepted| == |p.outcomes| && Inv(Flush(p, n))
  {
    Bounds(p);
    FlushStream(p, n);
    DropData(p.accepted, |p.wire|);
    FlushDecided(p, n);
  }

  lemma ShutKeepsInv(p: Pipe)
    requires Inv(p)
    ensures Inv(Shut(p))
  {
    Bounds(p);
    SendableWithinData(p.accepted);
    var r := Shut(p);
    assert r.accepted[..r.settled] == r.accepted;
  }

  /** The direct send of `write` is queueing the bytes and draining them at once. */
  lemma WriteIsAppendThenFlush(p: Pipe, data: seq<byte>, offer: nat)
    requires Inv(p) && p.open && p.pendings == [] && data != []
    ensures var n := Min(offer, |data|); var q := Append(p, Entry(data, false));
            n <= Sendable(q.pendings) && Write(p, true, data, offer) == Flush(q, n)
  {
    hide Inv;
    Sizes(p);
    var e := Entry(data, false);
    var q := Append(p, e);
    var n := Min(offer, |data|);
    assert q.pendings == [e] && [e][1..] == [];
    assert Sendable([e]) == |data| + Sendable([]);
    assert Data([e]) == data + Data([]);
    var r := Flush(q, n);
    var k := |p.accepted|;
    if n == |data| {
      assert r.outcomes == p.outcomes + [Success];
    } else {
      assert Drop([e], n) == [Entry(data[n..], false)];
      assert r.outcomes == q.outcomes;
    }
  }

  lemma WriteKeepsInv(p: Pipe, active: bool, data: seq<byte>, offer: nat)
    requires Inv(p) && (active ==> p.open)
    ensures |p.pendings| <= |p.accepted| && Inv(Write(p, active, data, offer))
  {
    Bounds(p);
    if data != [] {
      var q := Append(p, Entry(data, false));
      AppendKeepsInv(p, Entry(data, false));
      if active && p.pendings == [] {
        WriteIsAppendThenFlush(p, data, offer);
        FlushKeepsInv(q, Min(offer, |data|));
      }
    }
  }

  lemma CloseGracefullyKeepsInv(p: Pipe, active: bool)
    requires Inv(p)
    ensures Inv(CloseGracefully(p, active))
  {
    AppendKeepsInv(p, Entry([], true));
  }

  lemma PassKeepsInv(p: Pipe, offer: nat)
    requires Inv(p) && p.open
    ensures |p.pendings| <= |p.accepted| && Inv(Pass(p, offer))
  {
    Bounds(p);
    var n := Min(offer, Sendable(p.pendings));
    FlushKeepsInv(p, n);
    ShutKeepsInv(Flush(p, n));
  }

  // ---- whole runs ----

  /** What the application and the loop can do to a channel, in any order.  Whether
      is_active() held at the call is part of the action; a closed channel never is. */
  datatype QueueAction =
    | DoWrite(active: bool, data: seq<byte>, offer: nat)
    | DoCloseGracefully(active: bool)
    | DoPass(offer: nat)
    | DoShut

  ghost function Step(p: Pipe, a: QueueAction): (r: Pipe)
    requires Inv(p)
    ensures Inv(r)
  {
    Bounds(p);
    match a
    case DoWrite(active, data, offer) =>
      WriteKeepsInv(p, active && p.open, data, offer); Write(p, active && p.open, data, offer)
    case DoCloseGracefully(active) =>
      CloseGracefullyKeepsInv(p, active && p.open); CloseGracefully(p, active && p.open)
    case DoPass(offer) =>
      if p.open then PassKeepsInv(p, offer); Pass(p, offer) else p
    case DoShut =>
      ShutKeepsInv(p); Shut(p)
  }

  ghost function Run(p: Pipe, actions: seq<QueueAction>): (r: Pipe)
    requires Inv(p)
    ensures Inv(r)
    decreases |actions|
  {
    if actions == [] then p else Run(Step(p, actions[0]), actions[1..])
  }

  lemma EmptyIsFine()
    ensures Inv(EMPTY)
  {
  }

  /** A fresh channel after some actions. */
  ghost function After(actions: seq<QueueAction>): (p: Pipe)
    ensures Inv(p)
  {
    EmptyIsFine();
    Run(EMPTY, actions)
  }

  lemma {:induction false} RunRun(p: Pipe, a: seq<QueueAction>, b: seq<QueueAction>)
    requires Inv(p)
    ensures Run(p, a + b) == Run(Run(p, a), b)
    decreases |a|
  {
    hide Inv, Step;
    if a == [] {
      assert a + b == b;
    } else {
      RunRun(Step(p, a[0]), a[1..], b);
      assert (a + b)[1..] == a[1..] + b;
    }
  }

  /** The bytes of all writes, in call order. */
  function Writes(actions: seq<QueueAction>): seq<byte> {
    if actions == [] then []
    else (if actions[0].DoWrite? then actions[0].data else []) + Writes(actions[1..])
  }

  /** Everything written is accepted, in call order, whatever the state of the channel. */
  lemma {:induction false} AcceptedAreWrites(p: Pipe, actions: seq<QueueAction>)
    requires Inv(p)
    ensures Data(Run(p, actions).accepted) == Data(p.accepted) + Writes(actions)
    decreases |actions|
  {
    hide Inv, Step;
    if actions != [] {
      StepAccepts(p, actions[0]);
      AcceptedAreWrites(Step(p, actions[0]), actions[1..]);
    }
  }

  lemma StepAccepts(p: Pipe, a: QueueAction)
    requires Inv(p)
    ensures Data(Step(p, a).accepted) == Data(p.accepted) + if a.DoWrite? then a.data else []
  {
    hide Inv, Data, Drop, Sendable;
    Sizes(p);
    var r, data := Step(p, a), if a.DoWrite? then a.data else [];
    if r.accepted != p.accepted {
      var e := Entry(data, !a.DoWrite?);
      assert r.accepted == p.accepted + [e];
      DataConcat(p.accepted, [e]);
      OneChunk(e);
    }
  }

  lemma OneChunk(e: Entry)
    ensures Data([e]) == e.buffer
  {
    assert [e][1..] == [];
  }

  /** One action only adds to the histories, and a future that is done keeps its outcome. */
  lemma StepOnlyAdds(p: Pipe, a: QueueAction)
    requires Inv(p)
    ensures var r := Step(p, a);
            && p.accepted <= r.accepted && p.wire <= r.wire
            && (forall i :: 0 <= i < |p.accepted| && p.outcomes[i] != Unset ==> r.outcomes[i] == p.outcomes[i])
            && (!p.open ==> !r.open && r.wire == p.wire)
  {
  }

  lemma {:induction false} FuturesAreSetOnce(p: Pipe, actions: seq<QueueAction>)
    requires Inv(p)
    ensures var r := Run(p, actions);
            && p.accepted <= r.accepted && p.wire <= r.wire
            && (forall i :: 0 <= i < |p.accepted| && p.outcomes[i] != Unset ==> r.outcomes[i] == p.outcomes[i])
            && (!p.open ==> !r.open && r.wire == p.wire)
    decreases |actions|
  {
    if actions != [] {
      StepOnlyAdds(p, actions[0]);
      FuturesAreSetOnce(Step(p, actions[0]), actions[1..]);
    }
  }

  /** Every run from a fresh channel: the bytes on the wire are a prefix of the bytes
      accepted; while open the rest is queued, byte for byte and counted exactly; and
      the i-th write has succeeded if and only if its last byte is on the wire. */
  lemma AnyRun(actions: seq<QueueAction>)
    ensures var p := After(actions);
            && p.wire <= Data(p.accepted)
            && (p.open ==> p.wire + Data(p.pendings) == Data(p.accepted) && AllWellFormed(p.pendings))
            && p.pendingBytes == |Data(p.pendings)|
            && |p.outcomes| == |p.accepted|
            && (forall i :: 0 <= i < |p.accepted| && !p.accepted[i].close ==>
                  (p.outcomes[i] == Success <==> |Data(p.accepted[..i + 1])| <= |p.wire|))
  {
    StreamOf(After(actions));
  }

  lemma {:induction false} DropWellFormed(q: seq<Entry>, n: nat)
    requires AllWellFormed(q)
    ensures AllWellFormed(Drop(q, n))
  {
    if q != [] && !q[0].close && n >= |q[0].buffer| { DropWellFormed(q[1..], n - |q[0].buffer|); }
  }

  /** What the invariant says to a reader, with the futures counted in bytes. */
  lemma StreamOf(p: Pipe)
    requires Inv(p)
    ensures p.wire <= Data(p.accepted) && p.pendingBytes == |Data(p.pendings)| && |p.outcomes| == |p.accepted|
    ensures p.open ==> p.wire + Data(p.pendings) == Data(p.accepted) && AllWellFormed(p.pendings)
    ensures forall i :: 0 <= i < |p.accepted| && !p.accepted[i].close ==>
              (p.outcomes[i] == Success <==> |Data(p.accepted[..i + 1])| <= |p.wire|)
  {
    StreamIntegrity(p);
    if p.open { DropWellFormed(p.accepted, |p.wire|); }
  }

  /** Successful writes form a prefix: no write overtakes an earlier one. */
  lemma SuccessesFormAPrefix(p: Pipe, i: nat, j: nat)
    requires Inv(p) && i < j < |p.accepted|
    requires p.outcomes[j] == Success && !p.accepted[i].close
    ensures p.outcomes[i] == Success
  {
    DataPrefix(p.accepted[..j + 1], i + 1);
    assert p.accepted[..j + 1][..i + 1] == p.accepted[..i + 1];
  }

  lemma ResolveResolve(outcomes: seq<Outcome>, a: nat, b: nat, c: nat)
    requires a <= b <= c <= |outcomes|
    ensures Resolve(Resolve(outcomes, a, b), b, c) == Resolve(outcomes, a, c)
  {
  }

  lemma TakeTake(w: seq<byte>, d: seq<byte>, a: nat, b: nat)
    requires a + b <= |d|
    ensures w + d[..a] + d[a..][..b] == w + d[..a + b]
  {
  }

  lemma FlushFlush(p: Pipe, a: nat, b: nat)
    requires |p.pendings| <= |p.accepted| == |p.outcomes|
    requires a + b <= Sendable(p.pendings)
    ensures b <= Sendable(Flush(p, a).pendings)
    ensures Flush(Flush(p, a), b) == Flush(p, a + b)
  {
    var q, k := p.pendings, |p.accepted|;
    DropData(q, a);
    DropDrop(q, a, b);
    DropLength(q, a);
    DropLength(Drop(q, a), b);
    TakeTake(p.wire, Data(q), a, b);
    ResolveResolve(p.outcomes, k - |q|, k - |Drop(q, a)|, k - |Drop(q, a + b)|);
    var r, s := Flush(Flush(p, a), b), Flush(p, a + b);
    assert r.wire == s.wire;
    assert r.outcomes == s.outcomes;
    assert r.pendings == s.pendings;
  }

  /** How passes are cut up is invisible: two passes do what one pass with the summed offers does. */
  lemma PassesAdd(p: Pipe, a: nat, b: nat)
    requires |p.pendings| <= |p.accepted| == |p.outcomes|
    requires a <= Sendable(p.pendings) && Pass(p, a) == Flush(p, a)
    ensures Pass(Pass(p, a), b) == Pass(p, a + b)
  {
    var left := Sendable(p.pendings) - a;
    SendableAfterFlush(p, a);
    FlushFlush(p, a, Min(b, left));
    assert Min(a + b, a + left) == a + Min(b, left);
  }

  lemma SendableAfterFlush(p: Pipe, a: nat)
    requires |p.pendings| <= |p.accepted| == |p.outcomes|
    requires a <= Sendable(p.pendings)
    ensures Sendable(Flush(p, a).pendings) == Sendable(p.pendings) - a
  {
    DropData(p.pendings, a);
  }

  // ---- closing ----

  /** The bytes in front of the first marker, when there is one. */
  lemma {:induction false} FirstMarker(q: seq<Entry>) returns (m: nat)
    requires HasMarker(q)
    requires AllWellFormed(q)
    ensures m < |q| && q[m].close && (forall i :: 0 <= i < m ==> !q[i].close)
    ensures Sendable(q) == |Data(q[..m])|
    ensures Drop(q, Sendable(q)) == q[m..]
  {
    if q[0].close {
      m := 0;
    } else {
      m := FirstMarker(q[1..]);
      m := m + 1;
      assert q[..m][1..] == q[1..][..m - 1];
    }
  }

  lemma {:induction false} NoMarker(q: seq<Entry>)
    requires !HasMarker(q)
    ensures Sendable(q) == |Data(q)| && Drop(q, Sendable(q)) == []
  {
    if q != [] { NoMarker(q[1..]); }
  }

  lemma {:induction false} ShortOfMarker(q: seq<Entry>, n: nat)
    requires n < Sendable(q)
    ensures Drop(q, n) != [] && !Drop(q, n)[0].close
  {
    if n >= |q[0].buffer| { ShortOfMarker(q[1..], n - |q[0].buffer|); }
  }

  lemma DrainStopsAtMarker(q: seq<Entry>, offer: nat)
    requires AllWellFormed(q)
    ensures AtMarker(Drop(q, Min(offer, Sendable(q)))) <==> HasMarker(q) && offer >= Sendable(q)
  {
    hide Drop, Sendable, Data, AllWellFormed;
    if offer < Sendable(q) {
      ShortOfMarker(q, offer);
    } else if HasMarker(q) {
      var m := FirstMarker(q);
    } else {
      NoMarker(q);
    }
  }

  /** A pass closes the channel if and only if a close was queued and the kernel takes
      everything queued before it. */
  lemma PassClosesIff(p: Pipe, offer: nat)
    requires Inv(p) && p.open
    ensures !Step(p, DoPass(offer)).open
            <==> HasMarker(p.pendings) && offer >= Sendable(p.pendings)
  {
    hide Drop, Sendable, Data, AllWellFormed, HasMarker;
    Bounds(p);
    DropWellFormed(p.accepted, |p.wire|);
    DrainStopsAtMarker(p.pendings, offer);
  }

  lemma {:induction false} MarkersStay(q: seq<Entry>, n: nat)
    requires HasMarker(Drop(q, n))
    ensures HasMarker(q)
  {
    var i :| 0 <= i < |Drop(q, n)| && Drop(q, n)[i].close;
    if !q[0].close {
      if n >= |q[0].buffer| {
        MarkersStay(q[1..], n - |q[0].buffer|);
        var j :| 0 <= j < |q[1..]| && q[1..][j].close;
        assert q[j + 1].close;
      } else {
        assert q[i].close;
      }
    }
  }

  /** With the bytes up to position m on the wire, the writes before it have succeeded and,
      one by one, those behind it have not. */
  lemma OutcomesAroundMarker(p: Pipe, m: nat, i: nat)
    requires Inv(p) && m < |p.accepted| && i < |p.accepted| && !p.accepted[i].close
    requires p.wire == Data(p.accepted[..m])
    ensures p.outcomes[i] == Success <==> i < m
  {
    if i < m {
      DataPrefix(p.accepted[..m], i + 1);
      assert p.accepted[..m][..i + 1] == p.accepted[..i + 1];
    } else {
      DataSplitsAt(p.accepted, i);
      DataPrefix(p.accepted[..i], m);
      assert p.accepted[..i][..m] == p.accepted[..m];
    }
  }

  lemma ClosingPassSendsUpToMarker(p: Pipe, offer: nat) returns (m: nat)
    requires Inv(p) && p.open && !Step(p, DoPass(offer)).open
    ensures m < |p.accepted| && p.accepted[m].close
    ensures forall i :: 0 <= i < m ==> !p.accepted[i].close
    ensures Step(p, DoPass(offer)).wire == Data(p.accepted[..m])
  {
    Bounds(p);
    PassClosesIff(p, offer);
    MarkersStay(p.accepted, |p.wire|);
    m := FirstMarker(p.accepted);
    DropData(p.accepted, |p.wire|);
    DataPrefix(p.accepted, m);
    var r := Step(p, DoPass(offer));
    assert r.wire <= Data(p.accepted) && |r.wire| == Sendable(p.accepted);
  }

  /** A graceful close flushes: when a pass closes the channel, the first close ever
      accepted is at some position m, exactly the bytes accepted before it were sent,
      those writes all succeeded, and every write after it failed unsent. */
  lemma GracefulCloseFlushes(p: Pipe, offer: nat) returns (m: nat)
    requires Inv(p) && p.open && !Step(p, DoPass(offer)).open
    ensures m < |p.accepted| && p.accepted[m].close
    ensures forall i :: 0 <= i < m ==> !p.accepted[i].close
    ensures var r := Step(p, DoPass(offer));
            && r.accepted == p.accepted
            && r.wire == Data(p.accepted[..m])
            && (forall i :: 0 <= i < |p.accepted| && !p.accepted[i].close ==>
                  r.outcomes[i] == if i < m then Success else Failed)
  {
    m := ClosingPassSendsUpToMarker(p, offer);
    var r := Step(p, DoPass(offer));
    forall i | 0 <= i < |p.accepted| && !p.accepted[i].close
      ensures r.outcomes[i] == if i < m then Success else Failed
    {
      OutcomesAroundMarker(r, m, i);
    }
  }

  /** Closing leaves no write undecided, fails exactly those not wholly sent, and sends nothing. */
  lemma ShutDischarges(p: Pipe)
    requires Inv(p)
    ensures var r := Shut(p);
            && !r.open && r.pendings == [] && r.pendingBytes == 0 && r.wire == p.wire
            && (forall i :: 0 <= i < |p.accepted| && !p.accepted[i].close ==> r.outcomes[i] != Unset)
            && (forall i :: 0 <= i < |p.accepted| ==> (r.outcomes[i] == Success <==> p.outcomes[i] == Success))
  {
  }

  /** Closing again changes something exactly when something was queued after the first
      close: such writes are never sent and stay undecided until then. */
  lemma SecondShut(p: Pipe)
    requires Inv(p) && !p.open
    ensures Shut(p) == p <==> p.pendings == []
    ensures forall i :: p.settled <= i < |p.accepted| ==> p.outcomes[i] == Unset
  {
    forall i | p.settled <= i < |p.accepted| ensures p.outcomes[i] == Unset {
      if !p.accepted[i].close {
        DataSplitsAt(p.accepted, i);
        DataPrefix(p.accepted[..i], p.settled);
        assert p.accepted[..i][..p.settled] == p.accepted[..p.settled];
      }
    }
    if p.pendings == [] {
      assert Shut(p).outcomes == p.outcomes;
    }
  }
}
