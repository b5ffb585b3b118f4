/** The outbound half of a channel as the program has it: chunks trimmed in place,
    one future a chunk, a queue shared between the channel and the pass that drains
    it.  The ghost field `view` is the channel's value in module Pipeline; every
    method says which Pipeline function takes the old view to the new one. */
module ChannelObjects {
  import opened Pipeline
  import Writability

  class Future {
    var state: Outcome
    ghost const ticket: int  // which accepted chunk it belongs to; -1 for a close future

    constructor (ghost ticket: int)
      ensures state == Unset && this.ticket == ticket
    {
      state, this.ticket := Unset, ticket;
    }

    /** set_result of the standard library, which raises on a future that is done; no call below
        finds one. */
    method SetResult()
      requires state == Unset
      modifies this
      ensures state == Success
    {
      state := Success;
    }

    /** ChannelFuture.set: a future that is done is left alone. */
    method Set()
      modifies this
      ensures state == if old(state) == Unset then Success else old(state)
    {
      if state != Unset { return; }
      SetResult();
    }

    method SetException()
      requires state == Unset
      modifies this
      ensures state == Failed
    {
      state := Failed;
    }
  }

  class Chunk {
    var buffer: seq<byte>
    const future: Future
    const close: bool

    constructor (buffer: seq<byte>, future: Future, close: bool)
      ensures this.buffer == buffer && this.future == future && this.close == close
    {
      this.buffer, this.future, this.close := buffer, future, close;
    }
  }

  datatype SendResult = Sent(count: nat) | Error

  /** The kernel's end of the connection, as an adversary: a send takes any positive
      number of the bytes offered, or fails. */
  class Socket {
    ghost var wire: seq<byte>
    ghost var errors: nat
    var isOpen: bool

    constructor ()
      ensures wire == [] && errors == 0 && isOpen
    {
      wire, errors, isOpen := [], 0, true;
    }

    method Send(data: seq<byte>) returns (r: SendResult)
      requires data != []
      modifies this
      ensures isOpen == old(isOpen)
      ensures r.Sent? ==> 1 <= r.count <= |data| && wire == old(wire) + data[..r.count] && errors == old(errors)
      ensures r.Error? ==> wire == old(wire) && errors == old(errors) + 1
    {
      if * {
        var n: nat :| 1 <= n <= |data|;
        wire := wire + data[..n];
        r := Sent(n);
      } else {
        errors := errors + 1;
        r := Error;
      }
    }

    method Close()
      modifies this
      ensures !isOpen && wire == old(wire) && errors == old(errors)
    {
      isOpen := false;
    }
  }

  /** The chunks from `start` on have the values `tail`. */
  ghost predicate Holds(chunks: seq<Chunk>, start: nat, tail: seq<Entry>)
    reads chunks
  {
    && start + |tail| == |chunks|
    && forall i :: start <= i < |chunks| ==>
         chunks[i].buffer == tail[i - start].buffer && chunks[i].close == tail[i - start].close
  }

  /** Chunk i carries the future with the ticket first + i, a close marker the close future. */
  ghost predicate Owned(chunks: seq<Chunk>, fs: seq<Future>, first: nat) {
    && |fs| == |chunks|
    && forall i :: 0 <= i < |chunks| ==>
         chunks[i].future == fs[i] && fs[i].ticket == if chunks[i].close then -1 else first + i
  }

  // ---- the drain, on values ----

  lemma DropStep(q: seq<Entry>, c: nat, k: nat, left: nat)
    requires c < k <= |q| && !q[c].close
    ensures left >= |q[c].buffer| ==> Drop(q[c..k], left) == Drop(q[c + 1..k], left - |q[c].buffer|)
    ensures left < |q[c].buffer| ==>
              && Drop(q[c..k], left) != []
              && Drop(q[c..k], left) + q[k..] == [Entry(q[c].buffer[left..], false)] + q[c + 1..]
  {
    assert q[c..k][1..] == q[c + 1..k];
    assert q[c + 1..k] + q[k..] == q[c + 1..];
    if left < |q[c].buffer| {
      var t := Entry(q[c].buffer[left..], false);
      assert ([t] + q[c + 1..k]) + q[k..] == [t] + (q[c + 1..k] + q[k..]);
    }
  }

  /** Data chunks at the front are drained one after the other. */
  lemma {:induction false} DropPast(a: seq<Entry>, b: seq<Entry>, n: nat)
    requires forall i :: 0 <= i < |a| ==> !a[i].close
    requires n >= |Data(a)|
    ensures Drop(a + b, n) == Drop(b, n - |Data(a)|)
  {
    if a == [] {
      assert a + b == b;
    } else {
      assert (a + b)[1..] == a[1..] + b;
      DropPast(a[1..], b, n - |a[0].buffer|);
    }
  }

  lemma {:induction false} SendablePast(a: seq<Entry>, b: seq<Entry>)
    requires forall i :: 0 <= i < |a| ==> !a[i].close
    ensures Sendable(a + b) == |Data(a)| + Sendable(b) <= |Data(a + b)|
    ensures Data(a + b) == Data(a) + Data(b)
  {
    DataConcat(a, b);
    SendableWithinData(a + b);
    if a == [] {
      assert a + b == b;
    } else {
      assert (a + b)[1..] == a[1..] + b;
      SendablePast(a[1..], b);
    }
  }

  lemma {:induction false} DropWithin(a: seq<Entry>, b: seq<Entry>, n: nat)
    requires forall i :: 0 <= i < |a| ==> !a[i].close
    requires n < |Data(a)|
    ensures Drop(a + b, n) == Drop(a, n) + b && Drop(a, n) != []
  {
    assert (a + b)[1..] == a[1..] + b;
    if n >= |a[0].buffer| {
      DropWithin(a[1..], b, n - |a[0].buffer|);
    } else {
      assert [a[0].(buffer := a[0].buffer[n..])] + (a[1..] + b) == [a[0].(buffer := a[0].buffer[n..])] + a[1..] + b;
    }
  }

  /** What a send of s bytes out of the batch q[start..end] leaves of the queue. */
  lemma BatchLeaves(q: seq<Entry>, start: nat, end: nat, s: nat)
    requires start <= end <= |q| && forall i :: start <= i < end ==> !q[i].close
    requires s <= |Data(q[start..end])|
    ensures s <= Sendable(q[start..]) <= |Data(q[start..])|
    ensures Data(q[start..])[..s] == Data(q[start..end])[..s]
    ensures Drop(q[start..end], s) == [] <==> s == |Data(q[start..end])|
    ensures Drop(q[start..end], s) != [] ==> Drop(q[start..], s) == Drop(q[start..end], s) + q[end..]
  {
    var a, b := q[start..end], q[end..];
    assert q[start..] == a + b;
    DropPast(a, b, |Data(a)|);
    SendablePast(a, b);
    NoMarker(a);
    if s < |Data(a)| { DropWithin(a, b, s); }
  }

  lemma NothingSent(q: seq<Entry>)
    requires q != [] && !q[0].close && q[0].buffer != []
    ensures Drop(q, 0) == q && 0 <= Sendable(q) <= |Data(q)|
  {
    assert q[0].buffer[0..] == q[0].buffer;
    SendableWithinData(q);
  }

  lemma BatchHasBytes(q: seq<Entry>, start: nat, end: nat)
    requires start < end <= |q|
    ensures |q[start].buffer| <= |Data(q[start..end])|
  {
    assert q[start..end][0] == q[start];
  }

  /** A pass that finished the first m chunks and then sent s more bytes. */
  lemma PassEnd(q: seq<Entry>, m: nat, s: nat)
    requires m <= |q| && forall i :: 0 <= i < m ==> !q[i].close
    requires s <= Sendable(q[m..])
    ensures var n := |Data(q[..m])| + s;
            && n <= Sendable(q) <= |Data(q)| && s <= |Data(q[m..])|
            && Drop(q, n) == Drop(q[m..], s)
            && Data(q)[..n] == Data(q[..m]) + Data(q[m..])[..s]
  {
    assert q == q[..m] + q[m..];
    DropPast(q[..m], q[m..], |Data(q[..m])| + s);
    SendablePast(q[..m], q[m..]);
    SendableWithinData(q[m..]);
  }

  lemma ChunksGone(q: seq<Entry>, m: nat, k: nat)
    requires m <= k <= |q|
    ensures Data(q[..k]) == Data(q[..m]) + Data(q[m..k])
  {
    assert q[..k] == q[..m] + q[m..k];
    DataConcat(q[..m], q[m..k]);
  }

  lemma NoData(q: seq<Entry>)
    ensures Data(q[..0]) == [] && forall n: nat :: Drop([], n) == []
  {
  }

  lemma AtTheEnd(q: seq<Entry>)
    requires q == [] || q[0].close
    ensures Drop(q, 0) == q && 0 <= Sendable(q)
  {
  }

  lemma FlushEffect(p: Pipe, n: nat)
    requires |p.pendings| <= |p.accepted| == |p.outcomes| && n <= Sendable(p.pendings)
    ensures n <= |Data(p.pendings)|
    ensures var r := Flush(p, n);
            && r.pendings == Drop(p.pendings, n) && |r.outcomes| == |p.outcomes|
            && r.(pendings := p.pendings, outcomes := p.outcomes)
               == p.(wire := p.wire + Data(p.pendings)[..n], pendingBytes := p.pendingBytes - n)
            && (forall i :: 0 <= i < |p.outcomes| ==>
                  r.outcomes[i] == if |p.accepted| - |p.pendings| <= i < |p.accepted| - |r.pendings| then Success
                                   else p.outcomes[i])
  {
    hide Data, Drop, Sendable;
    SendableWithinData(p.pendings);
  }

  /** When all chunks before the end or the first marker are done, everything that may go has gone. */
  lemma AllSent(q: seq<Entry>, m: nat)
    requires m <= |q| && forall i :: 0 <= i < m ==> !q[i].close
    requires m == |q| || q[m].close
    ensures |Data(q[..m])| == Sendable(q)
  {
    assert q == q[..m] + q[m..];
    SendablePast(q[..m], q[m..]);
  }

  lemma PassOfAll(p: Pipe, n: nat)
    requires |p.pendings| <= |p.accepted| == |p.outcomes| && n <= Sendable(p.pendings)
    ensures Pass(p, n) == CloseAtMarker(Flush(p, n))
  {
  }

  lemma ShutForgetsQueue(p: Pipe, pendings: seq<Entry>)
    requires |p.accepted| == |p.outcomes|
    ensures Shut(p.(pendings := pendings)) == Shut(p)
  {
    assert Shut(p.(pendings := pendings)).outcomes == Shut(p).outcomes;
  }

  lemma Append3(a: seq<byte>, b: seq<byte>, c: seq<byte>)
    ensures (a + b) + c == a + (b + c)
  {
  }

  /** A legal batch: the first k chunks, all data, alone or within the mark. */
  ghost predicate IsBatch(q: seq<Entry>, k: nat, high: int) {
    && k <= |q|
    && (forall i :: 0 <= i < k ==> !q[i].close)
    && (k <= 1 || |Data(q[..k])| <= high)
  }

  lemma BatchesGrow(q: seq<Entry>, j: nat, k: nat)
    requires j < k <= |q|
    ensures |Data(q[..j])| + |q[j].buffer| <= |Data(q[..k])|
  {
    DataSplitsAt(q, j);
    DataPrefix(q[..k], j + 1);
    assert q[..k][..j + 1] == q[..j + 1];
  }

  // ---- the drain, on chunks ----

  /** _pending_write_batch: greedy, and with no empty data chunk about as long as may be. */
  method PendingWriteBatch(chunks: seq<Chunk>, ghost q: seq<Entry>, high: int) returns (count: nat, total: nat)
    requires Holds(chunks, 0, q)
    ensures count <= |chunks| && total == |Data(q[..count])|
    ensures IsBatch(q, count, high)
    ensures chunks != [] && !chunks[0].close ==> count > 0
    ensures AllWellFormed(q) ==> forall k: nat :: IsBatch(q, k, high) ==> k <= count
  {
    hide Data;
    count, total := 0, 0;
    NoData(q);
    while count < |chunks|
      invariant count <= |chunks| && total == |Data(q[..count])|
      invariant IsBatch(q, count, high)
    {
      if chunks[count].close { break; }
      var size := |chunks[count].buffer|;
      DataSplitsAt(q, count);
      if count > 0 && total + size > high { break; }
      count, total := count + 1, total + size;
      if total >= high { break; }
    }
    if AllWellFormed(q) {
      forall k: nat | IsBatch(q, k, high) ensures k <= count {
        if k > count { BatchesGrow(q, count, k); }
      }
    }
  }

  /** b''.join over the buffers of a batch. */
  method Join(batch: seq<Chunk>, ghost q: seq<Entry>) returns (buffer: seq<byte>)
    requires Holds(batch, 0, q)
    ensures buffer == Data(q)
  {
    hide Data;
    buffer := [];
    NoData(q);
    for i := 0 to |batch|
      invariant buffer == Data(q[..i])
    {
      DataSplitsAt(q, i);
      buffer := buffer + batch[i].buffer;
    }
    assert q[..|q|] == q;
  }

  /** The inner loop of the pass: empty data chunks at the front need no send. */
  method SkipEmpty(queue: seq<Chunk>, start: nat, ghost q: seq<Entry>, ghost fs: seq<Future>, ghost first: nat)
    returns (next: nat)
    requires Owned(queue, fs, first) && Holds(queue, 0, q) && start <= |queue|
    requires forall i :: start <= i < |queue| ==> fs[i].state == Unset
    modifies fs
    ensures start <= next <= |queue| && forall i :: start <= i < next ==> !q[i].close
    ensures Data(q[..next]) == Data(q[..start])
    ensures forall i :: 0 <= i < |queue| ==> fs[i].state == if start <= i < next then Success else old(fs[i].state)
    ensures next == |queue| || queue[next].close || queue[next].buffer != []
  {
    hide Data;
    next := start;
    while next < |queue| && !queue[next].close && queue[next].buffer == []
      invariant start <= next <= |queue| && forall i :: start <= i < next ==> !q[i].close
      invariant Data(q[..next]) == Data(q[..start])
      invariant forall i :: 0 <= i < |queue| ==> fs[i].state == if start <= i < next then Success else old(fs[i].state)
    {
      DataSplitsAt(q, next);
      queue[next].future.SetResult();
      next := next + 1;
    }
  }

  method TrimHead(queue: seq<Chunk>, at: nat, sent: nat, ghost q: seq<Entry>)
    requires Holds(queue, 0, q) && at < |queue| && !queue[at].close && sent <= |queue[at].buffer|
    requires forall i :: at < i < |queue| ==> queue[i] != queue[at]
    modifies queue
    ensures Holds(queue, at, [Entry(q[at].buffer[sent..], false)] + q[at + 1..])
  {
    queue[at].buffer := queue[at].buffer[sent..];
  }

  /** The loop over a batch after a send, the chunks start..end - 1 of the queue: futures of
      finished chunks succeed, the first unfinished chunk loses its sent bytes in place. */
  method CompleteBatch(queue: seq<Chunk>, start: nat, end: nat, sent: nat,
                       ghost q: seq<Entry>, ghost fs: seq<Future>, ghost first: nat)
    returns (next: nat)
    requires Owned(queue, fs, first) && Holds(queue, 0, q) && start <= end <= |queue|
    requires forall i :: start <= i < end ==> !queue[i].close && fs[i].state == Unset
    modifies queue, fs
    ensures start <= next <= end
    ensures forall i :: 0 <= i < |queue| ==> fs[i].state == if start <= i < next then Success else old(fs[i].state)
    ensures next == end <==> Drop(q[start..end], sent) == []
    ensures next == end ==> Holds(queue, 0, q)
    ensures next < end ==> Holds(queue, next, Drop(q[start..end], sent) + q[end..])
  {
    hide Drop;
    var left: nat := sent;
    next := start;
    NoData(q);
    while next < end
      invariant start <= next <= end
      invariant Holds(queue, 0, q)
      invariant forall i :: 0 <= i < |queue| ==> fs[i].state == if start <= i < next then Success else old(fs[i].state)
      invariant Drop(q[start..end], sent) == Drop(q[next..end], left)
    {
      var chunk := queue[next];
      var size := |chunk.buffer|;
      DropStep(q, next, end, left);
      if left >= size {
        left := left - size;
        chunk.future.SetResult();
        next := next + 1;
        continue;
      }
      TrimHead(queue, next, left, q);
      return;
    }
    assert q[end..end] == [];
  }

  /** try_send tolerates one error, the second makes it give up. */
  const GIVE_UP := 2

  class NioSocketChannel {
    const low: int
    const high: int
    const socket: Socket
    const closeFuture: Future
    var pendings: seq<Chunk>
    var pendingBytes: int
    var writable: bool
    var active: bool
    ghost var futures: seq<Future>  // the future of each accepted chunk
    ghost var view: Pipe

    predicate IsActive()
      reads this`active, closeFuture
    {
      closeFuture.state == Unset && active
    }

    /** The queue is the tail of what was accepted, chunk by chunk with its own future. */
    ghost predicate Shape()
      reads this`pendings, this`futures, this`view
    {
      && |pendings| <= |futures| == |view.accepted| == |view.outcomes|
      && (forall j :: 0 <= j < |pendings| ==>
            && pendings[j].future == futures[|futures| - |pendings| + j]
            && pendings[j].close == view.accepted[|futures| - |pendings| + j].close)
      && closeFuture.ticket == -1
      && (forall i :: 0 <= i < |futures| ==>
            if view.accepted[i].close then futures[i] == closeFuture else futures[i].ticket == i)
    }

    /** The outcomes of the view are the states of the futures. */
    ghost predicate Reported()
      reads this`futures, this`view, futures
    {
      && |futures| == |view.accepted| == |view.outcomes|
      && forall i :: 0 <= i < |futures| ==>
           view.outcomes[i] == if view.accepted[i].close then Unset else futures[i].state
    }

    /** Exactly the queued data futures are undecided. */
    ghost predicate Undecided()
      reads this`futures, this`view, this`pendings, futures
      requires |futures| == |view.accepted|
    {
      forall i :: 0 <= i < |futures| && !view.accepted[i].close ==>
        (futures[i].state == Unset <==> i >= |futures| - |pendings|)
    }

    /** What holds between operations. */
    ghost predicate Valid()
      reads this, socket, closeFuture, pendings, futures
    {
      && Shape()
      && Holds(pendings, 0, view.pendings)
      && Reported()
      && Undecided()
      && view.wire == socket.wire && view.open == socket.isOpen && view.pendingBytes == pendingBytes
      && (socket.isOpen <==> closeFuture.state == Unset)
      && (active ==> socket.isOpen)
    }

    constructor (low: int, high: int)
      ensures Valid() && view == EMPTY && pendings == [] && futures == [] && writable && !active
      ensures this.low == low && this.high == high && fresh(socket) && fresh(closeFuture)
    {
      this.low, this.high := low, high;
      socket := new Socket();
      closeFuture := new Future(-1);
      pendings, pendingBytes, writable, active := [], 0, true, false;
      futures, view := [], EMPTY;
    }

    method Activate()
      requires Valid()
      modifies this`active
      ensures Valid() && active == socket.isOpen
    {
      if socket.isOpen { active := true; }
    }

    method CheckWritability()
      modifies this`writable
      ensures writable == Writability.Next(low, high, old(writable), pendingBytes)
    {
      if pendingBytes >= high {
        writable := false;
      } else if pendingBytes <= low {
        writable := true;
      }
    }

    /** try_send: sends a prefix and returns the rest; gives up only after spin + 1 errors. */
    method TrySend(data: seq<byte>, spin: nat) returns (remaining: seq<byte>)
      modifies socket
      ensures socket.isOpen == old(socket.isOpen)
      ensures |remaining| <= |data| && remaining == data[|data| - |remaining|..]
      ensures socket.wire == old(socket.wire) + data[..|data| - |remaining|]
      ensures old(socket.errors) <= socket.errors <= old(socket.errors) + spin + 1
      ensures remaining != [] <==> socket.errors == old(socket.errors) + spin + 1
    {
      if data == [] { return []; }
      var total, left := 0, spin;
      while total < |data|
        invariant 0 <= total <= |data|
        invariant socket.isOpen == old(socket.isOpen)
        invariant socket.wire == old(socket.wire) + data[..total]
        invariant 0 <= left <= spin && socket.errors == old(socket.errors) + (spin - left)
        decreases |data| - total + left
      {
        var r := socket.Send(data[total..]);
        match r {
          case Sent(count) =>
            assert data[..total] + data[total..][..count] == data[..total + count];
            total := total + count;
          case Error =>
            if left > 0 {
              left := left - 1;
              continue;
            }
            break;
        }
      }
      remaining := data[total..];
    }

    /** add_pending, for the chunk of an accepted write or close.  `e` is what was accepted;
        the chunk may already have lost bytes to the direct send, and they are in `wire`. */
    method AddPending(chunk: Chunk, ghost e: Entry, ghost wire: seq<byte>)
      requires Shape() && Holds(pendings, 0, view.pendings) && Reported() && Undecided()
      requires e.close == chunk.close
      requires if chunk.close then chunk.future == closeFuture
               else chunk.future.ticket == |futures| && chunk.future.state == Unset
      modifies this`pendings, this`pendingBytes, this`futures, this`view
      ensures Shape() && Holds(pendings, 0, view.pendings) && Reported() && Undecided()
      ensures futures == old(futures) + [chunk.future] && pendings == old(pendings) + [chunk]
      ensures pendingBytes == old(pendingBytes) + |chunk.buffer|
      ensures view == old(view).(accepted := old(view).accepted + [e],
                                 wire := wire,
                                 pendings := old(view).pendings + [Entry(chunk.buffer, chunk.close)],
                                 pendingBytes := old(view).pendingBytes + |chunk.buffer|,
                                 outcomes := old(view).outcomes + [Unset])
    {
      pendings := pendings + [chunk];
      pendingBytes := pendingBytes + |chunk.buffer|;
      futures := futures + [chunk.future];
      view := view.(accepted := view.accepted + [e],
                    wire := wire,
                    pendings := view.pendings + [Entry(chunk.buffer, chunk.close)],
                    pendingBytes := view.pendingBytes + |chunk.buffer|,
                    outcomes := view.outcomes + [Unset]);
    }

    /** write, inside the loop.  An empty write succeeds at once when the direct path is
        taken and is dropped, undecided for ever, when it is not. */
    method Write(data: seq<byte>) returns (f: Future)
      requires Valid()
      modifies this`pendings, this`pendingBytes, this`futures, this`view, socket
      ensures Valid() && fresh(f)
      ensures var offer := |socket.wire| - |old(socket.wire)|;
              offer >= 0 && view == Pipeline.Write(old(view), old(IsActive()), data, offer)
      ensures futures == old(futures) + if data == [] then [] else [f]
      ensures data == [] ==> f.state == if old(IsActive() && pendings == []) then Success else Unset
      ensures forall j :: 0 <= j < |pendings| ==> pendings[j] in old(pendings) || fresh(pendings[j])
      ensures if old(IsActive() && pendings == []) then socket.errors < old(socket.errors) + GIVE_UP ==> pendings == []
              else socket.errors == old(socket.errors)
    {
      f := new Future(|futures|);
      if IsActive() && |pendings| == 0 {
        WriteDirectly(data, f);
      } else if data != [] {
        var chunk := new Chunk(data, f, false);
        AddPending(chunk, Entry(data, false), view.wire);
      }
    }

    /** The branch of write that tries the socket first. */
    method WriteDirectly(data: seq<byte>, f: Future)
      requires Valid() && IsActive() && pendings == []
      requires f.state == Unset && f.ticket == |futures|
      modifies this`pendings, this`pendingBytes, this`futures, this`view, socket, f
      ensures Valid()
      ensures var offer := |socket.wire| - |old(socket.wire)|;
              offer >= 0 && view == Pipeline.Write(old(view), true, data, offer)
      ensures futures == old(futures) + if data == [] then [] else [f]
      ensures data == [] ==> f.state == Success
      ensures socket.errors < old(socket.errors) + GIVE_UP ==> pendings == []
      ensures forall j :: 0 <= j < |pendings| ==> pendings[j] in old(pendings) || fresh(pendings[j])
    {
      var remaining := TrySend(data, 1);
      if |remaining| > 0 {
        var chunk := new Chunk(remaining, f, false);
        AddPending(chunk, Entry(data, false), socket.wire);
      } else {
        f.SetResult();
        if data != [] { RecordSent(data, f); }
      }
    }

    /** History: a write that was wholly sent without being queued. */
    ghost method RecordSent(data: seq<byte>, f: Future)
      requires Shape() && Reported() && Undecided() && pendings == [] && view.pendings == []
      requires f.state == Success && f.ticket == |futures|
      modifies this`futures, this`view
      ensures Shape() && Holds(pendings, 0, view.pendings) && Reported() && Undecided()
      ensures futures == old(futures) + [f]
      ensures view == old(view).(accepted := old(view).accepted + [Entry(data, false)],
                                 wire := old(view).wire + data,
                                 outcomes := old(view).outcomes + [Success])
    {
      futures := futures + [f];
      view := view.(accepted := view.accepted + [Entry(data, false)],
                    wire := view.wire + data,
                    outcomes := view.outcomes + [Success]);
    }

    /** close_gracefully on a client channel, inside the loop. */
    method CloseGracefully()
      requires Valid()
      modifies this`pendings, this`pendingBytes, this`futures, this`view
      ensures Valid() && view == Pipeline.CloseGracefully(old(view), old(IsActive()))
      ensures futures == old(futures) + if old(IsActive()) then [closeFuture] else []
      ensures forall j :: 0 <= j < |pendings| ==> pendings[j] in old(pendings) || fresh(pendings[j])
    {
      if IsActive() {
        var marker := new Chunk([], closeFuture, true);
        AddPending(marker, Entry([], true), view.wire);
      }
    }

    /** fail_pendings: whatever future in the queue is undecided fails, the shared close
        future excepted. */
    method FailPendings()
      requires Shape()
      modifies this`pendings, this`pendingBytes, this`writable, futures
      ensures pendings == [] && pendingBytes == 0
      ensures writable == Writability.Next(low, high, old(writable), 0)
      ensures forall i :: 0 <= i < |futures| && !view.accepted[i].close ==>
                futures[i].state == if i >= |futures| - old(|pendings|) && old(futures[i].state) == Unset
                                    then Failed else old(futures[i].state)
      ensures closeFuture.state == old(closeFuture.state)
    {
      var i := 0;
      ghost var base := |futures| - |pendings|;
      while i < |pendings|
        invariant 0 <= i <= |pendings|
        invariant forall j :: 0 <= j < |futures| && !view.accepted[j].close ==>
                    futures[j].state == if base <= j < base + i && old(futures[j].state) == Unset
                                        then Failed else old(futures[j].state)
        invariant closeFuture.state == old(closeFuture.state)
        modifies futures
      {
        var chunk := pendings[i];
        assert chunk.future == futures[base + i];
        i := i + 1;
        if chunk.close && chunk.future == closeFuture { continue; }
        if chunk.future.state == Unset {
          chunk.future.SetException();
        }
      }
      pendings := [];
      pendingBytes := 0;
      CheckWritability();
    }

    /** _close_channel_internally, as far as this half is concerned.  In the middle of a pass
        the queue may still hold chunks that are done. */
    method Close()
      requires Shape() && Reported()
      requires forall i :: 0 <= i < |futures| - |pendings| && !view.accepted[i].close ==> futures[i].state != Unset
      requires view.wire == socket.wire && (socket.isOpen <==> closeFuture.state == Unset)
      modifies this`pendings, this`pendingBytes, this`writable, this`active, this`view, futures, socket, closeFuture
      ensures Valid() && view == Shut(old(view))
      ensures writable == Writability.Next(low, high, old(writable), 0)
      ensures !active && closeFuture.state != Unset && !socket.isOpen && socket.wire == old(socket.wire)
      ensures pendings == [] && socket.errors == old(socket.errors)
    {
      FailPendings();
      socket.Close();
      closeFuture.Set();
      active := false;
      view := Shut(view);
    }

    method CloseForcibly()
      requires Valid()
      modifies this`pendings, this`pendingBytes, this`writable, this`active, this`view, futures, socket, closeFuture
      ensures Valid() && view == Shut(old(view)) && pendings == []
      ensures socket.wire == old(socket.wire)
    {
      Close();
    }

    /** Choose a batch from `start` on, offer its bytes to the kernel, account for those taken. */
    method OfferBatch(queue: seq<Chunk>, start: nat, ghost q: seq<Entry>) returns (end: nat, sent: nat)
      requires Holds(queue, 0, q) && start < |queue| && !queue[start].close
      modifies this`pendingBytes, socket
      ensures start < end <= |queue| && forall i :: start <= i < end ==> !q[i].close
      ensures pendingBytes == old(pendingBytes) - sent && socket.isOpen == old(socket.isOpen)
      ensures sent <= |Data(q[start..end])|
      ensures socket.wire == old(socket.wire) + Data(q[start..end])[..sent]
      ensures old(socket.errors) <= socket.errors
      ensures sent < |Data(q[start..end])| ==> socket.errors >= old(socket.errors) + GIVE_UP
    {
      hide Data, Drop, Sendable;
      var count, total := PendingWriteBatch(queue[start..], q[start..], high);
      end := start + count;
      assert q[start..][..count] == q[start..end];
      forall i | start <= i < end ensures !q[i].close {
        assert !q[start..][i - start].close;
      }
      var buffer := Join(queue[start..end], q[start..end]);
      var remaining := TrySend(buffer, 1);
      sent := total - |remaining|;
      pendingBytes := pendingBytes - sent;
    }

    /** One round of the pass over the queue from `start` on: send a batch and settle its chunks. */
    method SendBatch(queue: seq<Chunk>, start: nat, ghost q: seq<Entry>, ghost fs: seq<Future>, ghost first: nat)
      returns (next: nat, sent: nat, partial: bool)
      requires Owned(queue, fs, first) && Holds(queue, 0, q)
      requires start < |queue| && !queue[start].close && queue[start].buffer != []
      requires forall i :: start <= i < |queue| ==> fs[i].state == Unset
      modifies this`pendingBytes, socket, queue, fs
      ensures start <= next <= |queue| && forall i :: start <= i < next ==> !q[i].close
      ensures pendingBytes == old(pendingBytes) - sent && socket.isOpen == old(socket.isOpen)
      ensures sent <= Sendable(q[start..]) <= |Data(q[start..])|
      ensures socket.wire == old(socket.wire) + Data(q[start..])[..sent]
      ensures old(socket.errors) <= socket.errors && (partial ==> socket.errors >= old(socket.errors) + GIVE_UP)
      ensures forall i :: 0 <= i < |queue| ==>
                fs[i].state == if start <= i < next then Success else old(fs[i].state)
      ensures partial ==> next < |queue| && Holds(queue, next, Drop(q[start..], sent))
      ensures !partial ==> next > start && Holds(queue, 0, q) && Data(q[start..])[..sent] == Data(q[start..next])
    {
      hide Data, Drop, Sendable;
      var end;
      end, sent := OfferBatch(queue, start, q);
      BatchLeaves(q, start, end, sent);
      if sent == 0 {
        next, partial := start, true;
        NothingSent(q[start..]);
        BatchHasBytes(q, start, end);
        return;
      }
      next := CompleteBatch(queue, start, end, sent, q, fs, first);
      partial := next < end;
    }

    /** The loop of _send_pending_chunks.  `queue[next..]` is what is left of the queue. */
    method Drain(queue: seq<Chunk>, ghost q: seq<Entry>, ghost fs: seq<Future>, ghost first: nat)
      returns (next: nat, ghost n: nat)
      requires Owned(queue, fs, first) && Holds(queue, 0, q) && socket.isOpen
      requires forall i :: 0 <= i < |queue| ==> fs[i].state == Unset
      modifies this`pendingBytes, socket, queue, fs
      ensures next <= |queue| && n <= Sendable(q) <= |Data(q)|
      ensures forall i :: 0 <= i < next ==> !q[i].close
      ensures Holds(queue, next, Drop(q, n))
      ensures socket.isOpen && socket.wire == old(socket.wire) + Data(q)[..n]
      ensures old(socket.errors) <= socket.errors
      ensures socket.errors < old(socket.errors) + GIVE_UP ==>
                n == Sendable(q) && (next == |queue| || queue[next].close)
      ensures pendingBytes == old(pendingBytes) - n
      ensures forall i :: 0 <= i < |queue| ==> fs[i].state == if i < next then Success else Unset
    {
      hide Data, Drop, Sendable;
      next, n := 0, 0;
      NoData(q);
      while next < |queue|
        invariant next <= |queue| && Holds(queue, 0, q) && forall i :: 0 <= i < next ==> !q[i].close
        invariant n == |Data(q[..next])| && socket.isOpen && socket.wire == old(socket.wire) + Data(q[..next])
        invariant pendingBytes == old(pendingBytes) - n && old(socket.errors) <= socket.errors
        invariant forall i :: 0 <= i < |queue| ==> fs[i].state == if i < next then Success else Unset
      {
        next := SkipEmpty(queue, next, q, fs, first);
        if next == |queue| || queue[next].close { break; }
        var start := next;
        var sent, partial;
        next, sent, partial := SendBatch(queue, start, q, fs, first);
        n := n + sent;
        PassEnd(q, start, sent);
        Append3(old(socket.wire), Data(q[..start]), Data(q[start..])[..sent]);
        if partial { return; }
        ChunksGone(q, start, next);
      }
      PassEnd(q, next, 0);
      AtTheEnd(q[next..]);
      AllSent(q, next);
      assert Drop(q, n) == q[next..];
    }

    /** The same on the channel's own queue, which stays in place for now. */
    method DrainQueue() returns (next: nat, ghost n: nat)
      requires Valid() && socket.isOpen
      modifies this`pendingBytes, socket, pendings, futures
      ensures next <= |pendings| && n <= Sendable(view.pendings) <= |Data(view.pendings)|
      ensures Holds(pendings, next, Drop(view.pendings, n))
      ensures socket.isOpen && socket.wire == old(socket.wire) + Data(view.pendings)[..n]
      ensures old(socket.errors) <= socket.errors
      ensures socket.errors < old(socket.errors) + GIVE_UP ==>
                n == Sendable(view.pendings) && (next == |pendings| || pendings[next].close)
      ensures pendingBytes == old(pendingBytes) - n
      ensures var base := |futures| - |pendings|;
              && (forall i :: base <= i < base + next ==> !view.accepted[i].close)
              && (forall i :: 0 <= i < |futures| ==>
                    futures[i].state == if base <= i < base + next then Success else old(futures[i].state))
    {
      hide Data, Drop, Sendable;
      ghost var base := |futures| - |pendings|;
      ghost var fs := futures[base..];
      next, n := Drain(pendings, view.pendings, fs, base);
      forall i | base <= i < base + next ensures !view.accepted[i].close {
        assert !view.pendings[i - base].close;
      }
      forall i | 0 <= i < |futures|
        ensures futures[i].state == if base <= i < base + next then Success else old(futures[i].state)
      {
        if base <= i { assert futures[i] == fs[i - base]; }
      }
    }

    /** History: the view is flushed, all but its queue. */
    ghost method FlushView(next: nat, n: nat)
      requires Shape() && next <= |pendings| && n <= Sendable(view.pendings)
      requires |pendings| == |view.pendings| && |Drop(view.pendings, n)| == |pendings| - next
      requires var base := |futures| - |pendings|;
               && (forall i :: base <= i < base + next ==> !view.accepted[i].close)
               && (forall i :: 0 <= i < |futures| ==>
                     if view.accepted[i].close then view.outcomes[i] == Unset
                     else futures[i].state == if base <= i < base + next then Success else view.outcomes[i])
      modifies this`view
      ensures view == Flush(old(view), n).(pendings := old(view).pendings)
      ensures Shape() && Reported()
    {
      hide Data, Drop, Sendable, Flush;
      FlushEffect(view, n);
      view := Flush(view, n).(pendings := view.pendings);
    }

    /** And with the view flushed. */
    method DrainPendings() returns (next: nat, ghost n: nat)
      requires Valid() && socket.isOpen
      modifies this`pendingBytes, this`view, socket, pendings, futures
      ensures |old(view).pendings| <= |old(view).accepted| && next <= |pendings|
      ensures n <= Sendable(old(view).pendings) && |socket.wire| == |old(socket.wire)| + n
      ensures old(socket.errors) <= socket.errors
      ensures socket.errors < old(socket.errors) + GIVE_UP ==>
                n == Sendable(old(view).pendings) && (next == |pendings| || pendings[next].close)
      ensures view == Flush(old(view), n).(pendings := old(view).pendings)
      ensures Shape() && Reported() && Holds(pendings, next, Flush(old(view), n).pendings)
      ensures forall i :: 0 <= i < |futures| && !view.accepted[i].close ==>
                (futures[i].state == Unset <==> i >= |futures| - |pendings| + next)
      ensures view.wire == socket.wire && socket.isOpen && view.open
      ensures pendingBytes == view.pendingBytes && closeFuture.state == Unset
    {
      hide Data, Drop, Sendable, Flush;
      next, n := DrainQueue();
      FlushEffect(view, n);
      FlushView(next, n);
    }

    /** Closing in the middle of a pass, when a close chunk has come to the head. */
    method CloseInPass(ghost flushed: Pipe)
      requires Shape() && Reported() && view == flushed.(pendings := view.pendings)
      requires forall i :: 0 <= i < |futures| - |pendings| && !view.accepted[i].close ==> futures[i].state != Unset
      requires view.wire == socket.wire && socket.isOpen && closeFuture.state == Unset
      modifies this`pendings, this`pendingBytes, this`writable, this`active, this`view, futures, socket, closeFuture
      ensures Valid() && view == Shut(flushed) && pendings == [] && !socket.isOpen
      ensures writable == Writability.Next(low, high, old(writable), 0)
      ensures socket.wire == old(socket.wire) && socket.errors == old(socket.errors)
    {
      ShutForgetsQueue(flushed, view.pendings);
      Close();
    }

    /** set_pendings, at the end of a pass that leaves the channel open. */
    method SetPendings(next: nat, ghost rest: seq<Entry>)
      requires next <= |pendings| && Shape() && Reported() && Holds(pendings, next, rest)
      requires forall i :: 0 <= i < |futures| && !view.accepted[i].close ==>
                 (futures[i].state == Unset <==> i >= |futures| - |pendings| + next)
      modifies this`pendings, this`view
      ensures Shape() && Reported() && Undecided() && Holds(pendings, 0, rest)
      ensures view == old(view).(pendings := rest)
      ensures next <= |old(pendings)| && pendings == old(pendings)[next..]
    {
      pendings := pendings[next..];
      view := view.(pendings := rest);
    }

    /** _send_pending_chunks: the whole pass.  It leaves something queued on an open channel only
        after one try_send gave up; otherwise everything before the first close marker goes out.
        Whatever the chunk sizes, the batches and the kernel's answers, it amounts to `Pass` with
        the number of bytes that went out. */
    method SendPendingChunks() returns (ghost gone: nat, ghost n: nat)
      requires Valid() && socket.isOpen
      modifies this`pendings, this`pendingBytes, this`writable, this`active, this`view
      modifies socket, closeFuture, pendings, futures
      ensures Valid() && |old(view).pendings| <= |old(view).accepted|
      ensures |socket.wire| == |old(socket.wire)| + n && view == Pass(old(view), n)
      ensures socket.errors < old(socket.errors) + GIVE_UP ==> n == Sendable(old(view).pendings)
      ensures old(socket.errors) <= socket.errors
      ensures socket.isOpen && pendings != [] ==> socket.errors >= old(socket.errors) + GIVE_UP
      ensures socket.isOpen ==> writable == old(writable) && active == old(active)
      ensures !socket.isOpen ==> writable == Writability.Next(low, high, old(writable), 0)
      ensures gone <= |old(pendings)| && pendings == old(pendings)[gone..]
    {
      hide Data, Drop, Sendable, Flush, Shut, Pass, CloseAtMarker;
      var next;
      next, n := DrainPendings();
      PassOfAll(old(view), n);
      gone := EndPass(next, Flush(old(view), n));
    }

    /** The end of the pass: a close chunk at the head closes the channel, otherwise what is
        left becomes the queue. */
    method EndPass(next: nat, ghost flushed: Pipe) returns (ghost gone: nat)
      requires Shape() && Reported() && view == flushed.(pendings := view.pendings)
      requires next <= |pendings| && Holds(pendings, next, flushed.pendings)
      requires forall i :: 0 <= i < |futures| && !view.accepted[i].close ==>
                 (futures[i].state == Unset <==> i >= |futures| - |pendings| + next)
      requires view.wire == socket.wire && socket.isOpen && view.open
      requires pendingBytes == view.pendingBytes && closeFuture.state == Unset
      modifies this`pendings, this`pendingBytes, this`writable, this`active, this`view
      modifies socket, closeFuture, futures
      ensures Valid() && view == CloseAtMarker(flushed)
      ensures socket.wire == old(socket.wire) && socket.errors == old(socket.errors)
      ensures socket.isOpen ==> writable == old(writable) && active == old(active)
      ensures !socket.isOpen ==> writable == Writability.Next(low, high, old(writable), 0)
      ensures gone <= |old(pendings)| && pendings == old(pendings)[gone..]
      ensures socket.isOpen ==> gone == next && (next == |old(pendings)| || !old(pendings)[next].close)
    {
      hide Data, Drop, Sendable, Flush, Shut, Pass;
      assert AtMarker(flushed.pendings) <==> next < |pendings| && pendings[next].close;
      if next < |pendings| && pendings[next].close {
        CloseInPass(flushed);
        gone := |old(pendings)|;
      } else {
        SetPendings(next, flushed.pendings);
        gone := next;
      }
    }
  }

  /** What can happen to a channel object. */
  datatype Call = Activated | Writable | Written(data: seq<byte>) | ClosedGracefully | ClosedForcibly

  /** Any sequence of calls, against any kernel, on a new channel: the object stays within
      the runs of module Pipeline, so its invariant, and with it stream integrity and exact
      futures, holds of the real fields; unless sends fail, a writable event empties the queue or
      closes the channel.  No future is ever set twice. */
  method Drive(low: int, high: int, calls: seq<Call>) returns (c: NioSocketChannel)
    ensures c.Valid() && Inv(c.view)
    ensures c.socket.wire <= Data(c.view.accepted)
    ensures c.socket.isOpen ==> c.socket.wire + Data(c.view.pendings) == Data(c.view.accepted)
    ensures c.pendingBytes == |Data(c.view.pendings)| && Holds(c.pendings, 0, c.view.pendings)
    ensures forall i :: 0 <= i < |c.futures| && !c.view.accepted[i].close ==>
              (c.futures[i].state == Success <==> |Data(c.view.accepted[..i + 1])| <= |c.socket.wire|)
    ensures calls != [] && calls[|calls| - 1].Writable? && c.socket.errors < GIVE_UP ==>
              c.pendings == [] || !c.socket.isOpen
  {
    hide Data, Drop, Sendable, Inv, Pass, Shut, Pipeline.Write, Pipeline.CloseGracefully;
    hide NioSocketChannel.Undecided, NioSocketChannel.Shape, Holds;
    c := new NioSocketChannel(low, high);
    EmptyIsFine();
    for k := 0 to |calls|
      invariant c.Valid() && Inv(c.view) && fresh(c) && fresh(c.socket) && fresh(c.closeFuture)
      invariant fresh(c.pendings) && fresh(c.futures)
      invariant k > 0 && calls[k - 1].Writable? && c.socket.errors < GIVE_UP && c.socket.isOpen ==> c.pendings == []
    {
      ghost var v, active := c.view, c.IsActive();
      match calls[k] {
        case Activated =>
          c.Activate();
        case Writable =>
          if c.socket.isOpen {
            ghost var _, n := c.SendPendingChunks();
            PassKeepsInv(v, n);
          }
        case Written(data) =>
          var f := c.Write(data);
          WriteKeepsInv(v, active, data, |c.socket.wire| - |v.wire|);
        case ClosedGracefully =>
          c.CloseGracefully();
          CloseGracefullyKeepsInv(v, active);
        case ClosedForcibly =>
          c.CloseForcibly();
          ShutKeepsInv(v);
      }
    }
    StreamOf(c.view);
  }
}
