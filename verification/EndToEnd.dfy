/** The parts put together: frames through a client's write queue, an echo server and back, and
    the calls of many threads through the task queue into one channel. */
module EndToEnd {
  import opened Pipeline
  import Lifecycle
  import ChannelSpec
  import ReadSide
  import Frames
  import WakeUp

  lemma PrefixOfPrefix(a: seq<byte>, b: seq<byte>, c: seq<byte>)
    requires a <= b && b <= c
    ensures a <= c
  {
  }

  // ---- two channels joined by TCP ----

  /** One end of a connection: its channel's history and the readable events behind it. */
  datatype End = End(tls: bool, low: int, high: int, actions: seq<Lifecycle.Action>, events: seq<ReadSide.ReadEvent>)

  /** What recvall returns at each of these events, up to the one that closes the channel. */
  function Results(t: ReadSide.Tuning, events: seq<ReadSide.ReadEvent>): seq<ChannelSpec.Got>
    requires 1 <= t.initial
  {
    if events == [] then []
    else
      var k := |events| - 1;
      var before, e := ReadSide.ReadPasses(t, events[..k]), events[k];
      var got := ReadSide.RecvAll(t, before.held + e.arrived, e.ended, e.replies);
      Results(t, events[..k]) + if before.closed then [] else [ChannelSpec.Got(got.data, got.eof)]
  }

  /** The data and end-of-file flags in the history are those that recvall returned. */
  ghost predicate Joined(t: ReadSide.Tuning, e: End)
    requires 1 <= t.initial
  {
    && 0 <= e.low < e.high
    && ChannelSpec.AllGot(ChannelSpec.Start(e.tls), e.actions) == Results(t, e.events)
  }

  ghost function ChannelOf(t: ReadSide.Tuning, e: End): Lifecycle.Channel
    requires 1 <= t.initial && Joined(t, e)
  {
    Lifecycle.Life(e.tls, e.low, e.high, e.actions)
  }

  lemma {:induction false} DataOfMore(got: seq<ChannelSpec.Got>, g: ChannelSpec.Got)
    ensures ChannelSpec.DataOf(got + [g]) == ChannelSpec.DataOf(got) + g.data
  {
    if got == [] {
      assert [] + [g] == [g] && [g][1..] == [];
    } else {
      assert (got + [g])[1..] == got[1..] + [g];
      DataOfMore(got[1..], g);
    }
  }

  lemma {:induction false} ResultsAreDelivered(t: ReadSide.Tuning, events: seq<ReadSide.ReadEvent>)
    requires 1 <= t.initial
    ensures ChannelSpec.DataOf(Results(t, events)) == ReadSide.ReadPasses(t, events).delivered
  {
    hide ReadSide.RecvAll;
    if events != [] {
      var k := |events| - 1;
      var before, e := ReadSide.ReadPasses(t, events[..k]), events[k];
      ResultsAreDelivered(t, events[..k]);
      var got := ReadSide.RecvAll(t, before.held + e.arrived, e.ended, e.replies);
      DataOfMore(Results(t, events[..k]), ChannelSpec.Got(got.data, got.eof));
      assert Results(t, events[..k]) + [] == Results(t, events[..k]);
    }
  }

  /** The channel's handler is given the received stream: all payloads so far are a prefix of what
      has arrived. */
  lemma ChannelReceives(t: ReadSide.Tuning, e: End)
    requires 1 <= t.initial && Joined(t, e)
    ensures ChannelSpec.Payloads(ChannelOf(t, e).trace) == ReadSide.ReadPasses(t, e.events).delivered
    ensures ReadSide.ReadPasses(t, e.events).delivered <= ReadSide.Arrived(e.events)
  {
    hide ReadSide.ReadPasses, ReadSide.Arrived, Results, ChannelSpec.AllGot, Lifecycle.Life;
    ChannelSpec.HandlerGetsAll(e.tls, e.low, e.high, e.actions);
    ResultsAreDelivered(t, e.events);
    ReadSide.DeliversStream(t, e.events);
    var r := ReadSide.ReadPasses(t, e.events);
    PrefixOfPrefix(r.delivered, r.delivered + r.held, ReadSide.Arrived(e.events));
  }

  /** One hop: whatever is written to a channel, with any partial sends, failed sends and closes, the
      payloads its peer's handler has been given so far are a prefix of it.  TCP delivers a
      prefix of what the sender's kernel took. */
  lemma Hop(t: ReadSide.Tuning, sender: End, receiver: End)
    requires 1 <= t.initial && Joined(t, sender) && Joined(t, receiver)
    requires ReadSide.Arrived(receiver.events) <= ChannelOf(t, sender).pipe.wire
    ensures ChannelSpec.Payloads(ChannelOf(t, receiver).trace) <= ChannelSpec.Written(sender.actions)
  {
    hide ReadSide.ReadPasses, ReadSide.Arrived, Joined, Lifecycle.Life, ChannelSpec.Payloads, ChannelSpec.Written;
    ChannelReceives(t, receiver);
    Limits(t, sender);
    ChannelSpec.ChannelAcceptsWrites(sender.tls, sender.low, sender.high, sender.actions);
    var r := ReadSide.ReadPasses(t, receiver.events).delivered;
    PrefixOfPrefix(r, ReadSide.Arrived(receiver.events), ChannelOf(t, sender).pipe.wire);
    PrefixOfPrefix(r, ChannelOf(t, sender).pipe.wire, ChannelSpec.Written(sender.actions));
  }

  lemma Limits(t: ReadSide.Tuning, e: End)
    requires 1 <= t.initial && Joined(t, e)
    ensures 0 <= e.low < e.high
  {
  }

  /** What the client becomes when it is fed, before anything is known of the bytes. */
  lemma FedClient(c: Frames.Client, payloads: seq<seq<byte>>)
    requires Frames.Runnable(c) && Frames.NothingReceived(c)
    ensures var r := Frames.FedAll(c, payloads);
            && r == Frames.CutFrames(c.(buffer := Frames.Concat(payloads)))
            && Frames.InOrder(r) && r.id == c.id && r.size == c.size && r.messages == c.messages
            && Frames.Concat(r.written) == Frames.FrameStream(c.id, 0, |r.written|, c.size)
            && (c.sequential && c.connected && Frames.OneAhead(c) ==> Frames.OneAhead(r))
            && (Frames.Paced(c) && Frames.Timed(c) && r.received <= |r.written| ==> Frames.Timed(r))
  {
    hide Frames.CutFrames, Frames.FedAll, Frames.FrameStream, Frames.Concat, Frames.MakeFrame;
    var d := c.(buffer := Frames.Concat(payloads));
    Frames.SplitsDoNotMatter(c, payloads);
    assert c.buffer + Frames.Concat(payloads) == Frames.Concat(payloads);
    Frames.FeedKeepsOrder(d);
    Frames.CutKeepsParameters(d);
    var r := Frames.FedAll(c, payloads);
    Frames.WrittenIsStream(r, |r.written|);
    assert r.written[..|r.written|] == r.written;
    if c.sequential && c.connected && Frames.OneAhead(c) { Frames.OneOutstanding(d); }
    Frames.BufferAside(c, d.buffer);
    if Frames.Paced(c) && Frames.Timed(c) { Frames.FeedKeepsTimes(d); }
  }

  /** The frame round trip.  A client that has received nothing yet, whatever it has sent, is fed the
      payloads its channel's handler is given; what its channel was given to write so far are frames
      of its own, those it sent in answer to the payloads included; and the handler at the other
      end writes back what it is given.  Whatever the kernels on both sides do, the client has then
      received some m of its own frames, all good and in order, each with its latency, holds less
      than one more, and is complete exactly when all messages are back; a sequential one has
      exactly its next frame out. */
  lemma RoundTrip(t: ReadSide.Tuning, c: Frames.Client, client: End, server: End, payloads: seq<seq<byte>>)
    returns (m: nat)
    requires 1 <= t.initial && Joined(t, client) && Joined(t, server)
    requires Frames.Runnable(c) && Frames.NothingReceived(c)
    requires ChannelSpec.Written(client.actions) <= Frames.Concat(Frames.FedAll(c, payloads).written)
    requires ReadSide.Arrived(server.events) <= ChannelOf(t, client).pipe.wire
    requires ChannelSpec.Written(server.actions) <= ChannelSpec.Payloads(ChannelOf(t, server).trace)
    requires ReadSide.Arrived(client.events) <= ChannelOf(t, server).pipe.wire
    requires Frames.Concat(payloads) == ChannelSpec.Payloads(ChannelOf(t, client).trace)
    ensures var r := Frames.FedAll(c, payloads);
            && m <= |r.written| <= c.messages
            && r.received == m && r.verdicts == []
            && |r.buffer| < c.size
            && Frames.FrameStream(c.id, 0, m, c.size) + r.buffer == Frames.Concat(payloads)
            && (c.messages > 0 ==> (r.completed <==> m == c.messages))
            && (c.sequential && c.connected && Frames.OneAhead(c) ==> Frames.OneAhead(r))
            && (Frames.Paced(c) && Frames.Timed(c) ==> r.latencies == m)
            && (Frames.Concat(payloads) == Frames.Concat(r.written) ==> m == |r.written|)
  {
    hide Joined, ChannelOf, ChannelSpec.Payloads, ChannelSpec.Written, ReadSide.Arrived;
    hide Frames.FrameStream, Frames.FedAll, Frames.CutFrames, Frames.Concat;
    Hop(t, client, server);
    Hop(t, server, client);
    FedClient(c, payloads);
    var r, got := Frames.FedAll(c, payloads), Frames.Concat(payloads);
    var whole := Frames.Concat(r.written);
    var there := ChannelSpec.Payloads(ChannelOf(t, server).trace);
    PrefixOfPrefix(got, ChannelSpec.Written(server.actions), there);
    PrefixOfPrefix(got, there, ChannelSpec.Written(client.actions));
    PrefixOfPrefix(got, ChannelSpec.Written(client.actions), whole);
    var tail;
    m, tail := Frames.WholeFrames(c.id, 0, |r.written|, c.size, got);
    Frames.GoodFrames(c, m, tail);
  }

  // ---- calls from other threads ----

  /** What happens to one channel: a submitted call that the loop runs, or something else. */
  datatype ChannelEvent = Call(task: WakeUp.Task) | Own(a: QueueAction)

  /** The channel's actions when `calls` says what each submitted call does. */
  function ActionsOf(calls: WakeUp.Task -> QueueAction, steps: seq<ChannelEvent>): seq<QueueAction> {
    seq(|steps|, i requires 0 <= i < |steps| => if steps[i].Call? then calls(steps[i].task) else steps[i].a)
  }

  function CallsIn(steps: seq<ChannelEvent>): seq<WakeUp.Task> {
    if steps == [] then []
    else CallsIn(steps[..|steps| - 1]) + if steps[|steps| - 1].Call? then [steps[|steps| - 1].task] else []
  }

  lemma {:induction false} CallsOfPrefix(steps: seq<ChannelEvent>, i: nat)
    requires i <= |steps|
    ensures CallsIn(steps[..i]) <= CallsIn(steps)
  {
    if i < |steps| {
      assert steps[..|steps| - 1][..i] == steps[..i];
      CallsOfPrefix(steps[..|steps| - 1], i);
    } else {
      assert steps[..i] == steps;
    }
  }

  /** The call at step i is its thread's call number so many. */
  lemma NumberOfCall(moves: seq<WakeUp.Move>, steps: seq<ChannelEvent>, i: nat)
    requires WakeUp.Possible(moves) && CallsIn(steps) <= WakeUp.After(moves).executed
    requires i < |steps| && steps[i].Call?
    ensures var t := steps[i].task.owner;
            && steps[i].task.n == |WakeUp.Numbers(CallsIn(steps[..i]), t)|
            && |WakeUp.Numbers(CallsIn(steps[..i + 1]), t)| == steps[i].task.n + 1
  {
    hide WakeUp.After, WakeUp.Possible;
    var t, executed := steps[i].task.owner, WakeUp.After(moves).executed;
    WakeUp.TasksRunInOrder(moves, t);
    CallsOfPrefix(steps, i + 1);
    var upTo := CallsIn(steps[..i + 1]);
    assert steps[..i + 1][..i] == steps[..i];
    WakeUp.NumbersMore(CallsIn(steps[..i]), steps[i].task, t);
    assert executed[..|upTo|] == upTo;
    WakeUp.NumbersOfPrefix(executed, |upTo|, t);
    var k := |WakeUp.Numbers(CallsIn(steps[..i]), t)|;
    assert WakeUp.Numbers(upTo, t)[k] == steps[i].task.n;
  }

  /** Calls of one thread take effect in the order in which it made them. */
  lemma ProgramOrder(moves: seq<WakeUp.Move>, steps: seq<ChannelEvent>, i: nat, j: nat)
    requires WakeUp.Possible(moves) && CallsIn(steps) <= WakeUp.After(moves).executed
    requires i < |steps| && j < |steps| && steps[i].Call? && steps[j].Call?
    requires steps[i].task.owner == steps[j].task.owner
    ensures steps[i].task.n < steps[j].task.n <==> i < j
  {
    if i < j {
      Earlier(moves, steps, i, j);
    } else if j < i {
      Earlier(moves, steps, j, i);
    }
  }

  lemma Earlier(moves: seq<WakeUp.Move>, steps: seq<ChannelEvent>, i: nat, j: nat)
    requires WakeUp.Possible(moves) && CallsIn(steps) <= WakeUp.After(moves).executed
    requires i < j < |steps| && steps[i].Call? && steps[j].Call? && steps[i].task.owner == steps[j].task.owner
    ensures steps[i].task.n < steps[j].task.n
  {
    hide WakeUp.After, WakeUp.Possible, WakeUp.Numbers, CallsIn;
    var t := steps[i].task.owner;
    NumberOfCall(moves, steps, i);
    NumberOfCall(moves, steps, j);
    assert steps[..j][..i + 1] == steps[..i + 1];
    CallsOfPrefix(steps[..j], i + 1);
    var a, b := CallsIn(steps[..i + 1]), CallsIn(steps[..j]);
    assert b[..|a|] == a;
    WakeUp.NumbersOfPrefix(b, |a|, t);
  }

  /** Where in the accepted stream the chunk queued by step i stands. */
  ghost function Position(acts: seq<QueueAction>, i: nat): nat
    requires i <= |acts|
  {
    |After(acts[..i]).accepted|
  }

  /** The step queues a chunk: a write of something, or a close of a channel that is active. */
  ghost predicate Queues(acts: seq<QueueAction>, i: nat, e: Entry)
    requires i < |acts|
  {
    match acts[i]
    case DoWrite(_, data, _) => data != [] && e == Entry(data, false)
    case DoCloseGracefully(active) => active && After(acts[..i]).open && e == Entry([], true)
    case _ => false
  }

  lemma AcceptedAt(acts: seq<QueueAction>, i: nat, e: Entry)
    requires i < |acts| && Queues(acts, i, e)
    ensures var p := After(acts); Position(acts, i) < |p.accepted| && p.accepted[Position(acts, i)] == e
    ensures forall j :: i < j <= |acts| ==> Position(acts, i) < Position(acts, j)
  {
    var before := After(acts[..i]);
    Grows(acts, i, |acts|);
    forall j | i < j <= |acts| ensures Position(acts, i) < Position(acts, j) { Grows(acts, i, j); }
    assert acts[..|acts|] == acts;
  }

  lemma Grows(acts: seq<QueueAction>, i: nat, j: nat)
    requires i < j <= |acts|
    ensures Step(After(acts[..i]), acts[i]).accepted <= After(acts[..j]).accepted
  {
    hide Inv, Step;
    var before := After(acts[..i]);
    assert acts[..j] == acts[..i] + acts[i..j];
    EmptyIsFine();
    RunRun(EMPTY, acts[..i], acts[i..j]);
    assert acts[i..j][0] == acts[i];
    FuturesAreSetOnce(Step(before, acts[i]), acts[i..j][1..]);
  }

  /** A thread's graceful close never overtakes its own earlier writes: the write stands before the
      close in the accepted stream, and if that close is the one that closes the channel, the
      write has succeeded. */
  lemma CloseNeverOvertakes(moves: seq<WakeUp.Move>, calls: WakeUp.Task -> QueueAction, steps: seq<ChannelEvent>,
                            i: nat, j: nat, data: seq<byte>, offer: nat)
    requires WakeUp.Possible(moves) && CallsIn(steps) <= WakeUp.After(moves).executed
    requires i < |steps| && j < |steps| && steps[i].Call? && steps[j].Call?
    requires steps[i].task.owner == steps[j].task.owner && steps[i].task.n < steps[j].task.n
    requires var acts := ActionsOf(calls, steps);
             Queues(acts, i, Entry(data, false)) && Queues(acts, j, Entry([], true))
    ensures var acts := ActionsOf(calls, steps);
            && Position(acts, i) < Position(acts, j) < |After(acts).accepted|
            && var p := After(acts);
               var r := Step(p, DoPass(offer));
               p.open && !r.open && (forall k :: 0 <= k < Position(acts, j) ==> !p.accepted[k].close)
               ==> |r.outcomes| == |p.accepted| && r.outcomes[Position(acts, i)] == Success
  {
    var acts := ActionsOf(calls, steps);
    ProgramOrder(moves, steps, i, j);
    AcceptedAt(acts, i, Entry(data, false));
    AcceptedAt(acts, j, Entry([], true));
    var p := After(acts);
    var r := Step(p, DoPass(offer));
    if p.open && !r.open && forall k :: 0 <= k < Position(acts, j) ==> !p.accepted[k].close {
      var m := GracefulCloseFlushes(p, offer);
      assert m == Position(acts, j);
    }
  }
}
