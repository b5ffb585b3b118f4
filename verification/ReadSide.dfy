/** Reading: the adaptive buffer size and the receive loop of one readable event, against a
    kernel that hands out the peer's bytes in pieces of its own choice. */
module ReadSide {
  import opened Pipeline

  /** _ROUNDS, _INITIAL_BUFFER_SIZE, _MIN_BUFFER_SIZE and _MAX_BUFFER_SIZE, all configurable. */
  datatype Tuning = Tuning(rounds: int, initial: nat, min: int, max: int)

  function Larger(a: int, b: int): int { if a < b then b else a }
  function Smaller(a: int, b: int): int { if a < b then a else b }

  /** adaptive_bufsize. */
  function AdaptiveBufsize(t: Tuning, previous: nat, received: nat): nat {
    if received < previous / 2 && previous > t.min then Larger(previous / 2, t.min)
    else if received == previous && previous < t.max then Smaller(2 * previous, t.max)
    else previous
  }

  /** Whatever the configuration: the size leaves [min, max] only if it started outside, at most
      doubles, grows exactly after a full buffer while below the maximum, shrinks exactly after one
      less than half full while above the minimum, by a factor of two up to these limits, and
      never becomes zero, so an empty receive always means end of file. */
  lemma BufsizeBounds(t: Tuning, previous: nat, received: nat)
    requires 1 <= received <= previous
    ensures var next := AdaptiveBufsize(t, previous, received);
            && 1 <= next <= 2 * previous
            && Smaller(previous, t.min) <= next <= Larger(previous, t.max)
            && (next > previous <==> received == previous < t.max)
            && (next > previous ==> next == 2 * previous || next == t.max)
            && (next < previous <==> received < previous / 2 && previous > t.min)
            && (next < previous ==> next == previous / 2 || next == t.min)
  {
  }

  /** What the kernel does at one iteration: take some of the bytes that have arrived, or raise.
      `readable` is what is_readable() finds afterwards, `reset` whether the error is
      ECONNABORTED or ECONNRESET, `slow` whether the time limits are exceeded. */
  datatype Reply = Take(n: nat, slow: bool) | Error(readable: bool, reset: bool)

  predicate Retry(r: Reply) { r.Error? && r.readable }

  predicate Reset(r: Reply) { r.Error? && !r.readable && r.reset }

  /** How many bytes one receive returns: any number from one to what fits. */
  function Taken(n: nat, bufsize: nat, arrived: nat): (k: nat)
    requires 1 <= bufsize && 1 <= arrived
    ensures 1 <= k <= bufsize && k <= arrived && (1 <= n <= bufsize && n <= arrived ==> k == n)
  {
    Min(Min(bufsize, arrived), if n == 0 then 1 else n)
  }

  /** data and eof are returned; rest is left in the kernel; receives counts successful calls of recv,
      rounds all iterations. */
  datatype Received = Received(data: seq<byte>, eof: bool, rest: seq<byte>, receives: nat, rounds: nat)

  /** recvall from some iteration on.  `stream` is what the peer has sent and the kernel still
      holds, `ended` whether the peer has finished sending; without further replies the next
      receive would block. */
  function Receive(t: Tuning, stream: seq<byte>, ended: bool, replies: seq<Reply>, bufsize: nat, rounds: nat): Received
    requires 1 <= bufsize
    decreases |replies|
  {
    if replies == [] then Received([], false, stream, 0, rounds + 1)
    else match replies[0]
      case Error(readable, reset) =>
        if readable then Receive(t, stream, ended, replies[1..], bufsize, rounds + 1)
        else Received([], reset, stream, 0, rounds + 1)
      case Take(n, slow) =>
        if stream == [] then Received([], ended, [], 0, rounds + 1)
        else
          var k := Taken(n, bufsize, |stream|);
          BufsizeBounds(t, bufsize, k);
          if rounds + 1 == t.rounds || slow then Received(stream[..k], false, stream[k..], 1, rounds + 1)
          else
            var r := Receive(t, stream[k..], ended, replies[1..], AdaptiveBufsize(t, bufsize, k), rounds + 1);
            r.(data := stream[..k] + r.data, receives := r.receives + 1)
  }

  function RecvAll(t: Tuning, stream: seq<byte>, ended: bool, replies: seq<Reply>): Received
    requires 1 <= t.initial
  {
    Receive(t, stream, ended, replies, t.initial, 0)
  }

  /** The socket's receiving end. */
  class InboundSocket {
    var stream: seq<byte>
    var ended: bool
    var replies: seq<Reply>

    /** recv: bytes, the empty string at the end of the stream, or an error. */
    method Recv(bufsize: nat) returns (received: seq<byte>, error: bool, readable: bool, reset: bool, slow: bool)
      requires 1 <= bufsize
      modifies this`stream, this`replies
      ensures |replies| < |old(replies)| || (old(replies) == [] == replies)
      ensures if old(replies) == [] then error && !readable && !reset && stream == old(stream) && replies == []
              else replies == old(replies)[1..] && match old(replies)[0]
                case Error(a, b) => error && readable == a && reset == b && stream == old(stream)
                case Take(n, s) =>
                  if old(stream) != [] then
                    var k := Taken(n, bufsize, |old(stream)|);
                    !error && slow == s && received == old(stream)[..k] && stream == old(stream)[k..]
                  else stream == [] && if ended then !error && received == [] else error && !readable && !reset
    {
      received, error, readable, reset, slow := [], false, false, false, false;
      if replies == [] {
        error := true;
        return;
      }
      var reply := replies[0];
      replies := replies[1..];
      match reply {
        case Error(a, b) => error, readable, reset := true, a, b;
        case Take(n, s) =>
          if stream == [] {
            error := !ended;
          } else {
            var k := Taken(n, bufsize, |stream|);
            received, slow, stream := stream[..k], s, stream[k..];
          }
      }
    }
  }

  /** recvall: the loop computes `RecvAll`. */
  method RecvAllFrom(t: Tuning, socket: InboundSocket) returns (buffer: seq<byte>, eof: bool)
    requires 1 <= t.initial
    modifies socket`stream, socket`replies
    ensures var r := RecvAll(t, old(socket.stream), socket.ended, old(socket.replies));
            buffer == r.data && eof == r.eof && socket.stream == r.rest
  {
    var bufsize: nat, rounds: nat := t.initial, 0;
    buffer := [];
    ghost var whole := RecvAll(t, socket.stream, socket.ended, socket.replies);
    while true
      invariant 1 <= bufsize && socket.ended == old(socket.ended)
      invariant var r := Receive(t, socket.stream, socket.ended, socket.replies, bufsize, rounds);
                whole.data == buffer + r.data && whole.eof == r.eof && whole.rest == r.rest
      decreases |socket.replies|
    {
      rounds := rounds + 1;
      var received, error, readable, reset, slow := socket.Recv(bufsize);
      if error {
        if readable { continue; }
        eof := reset;
        return;
      }
      if received == [] {
        eof := true;
        return;
      }
      BufsizeBounds(t, bufsize, |received|);
      bufsize := AdaptiveBufsize(t, bufsize, |received|);
      buffer := buffer + received;
      if rounds == t.rounds || slow {
        eof := false;
        return;
      }
    }
  }

  // ---- where the loop stops ----

  /** The kernel's first n replies all keep the loop going: errors with a readable socket, and
      receives, not slow, that find something to take. */
  ghost predicate GoesOn(t: Tuning, stream: seq<byte>, replies: seq<Reply>, bufsize: nat, n: nat)
    requires 1 <= bufsize
    decreases n
  {
    n == 0 ||
    (replies != [] &&
     match replies[0]
     case Error(readable, _) => readable && GoesOn(t, stream, replies[1..], bufsize, n - 1)
     case Take(k, slow) =>
       && !slow && stream != []
       && var taken := Taken(k, bufsize, |stream|);
          BufsizeBounds(t, bufsize, taken);
          GoesOn(t, stream[taken..], replies[1..], AdaptiveBufsize(t, bufsize, taken), n - 1))
  }

  /** What the kernel still holds after them. */
  ghost function LeftAfter(t: Tuning, stream: seq<byte>, replies: seq<Reply>, bufsize: nat, n: nat): seq<byte>
    requires 1 <= bufsize && GoesOn(t, stream, replies, bufsize, n)
    decreases n
  {
    if n == 0 then stream
    else match replies[0]
      case Error(_, _) => LeftAfter(t, stream, replies[1..], bufsize, n - 1)
      case Take(k, _) =>
        var taken := Taken(k, bufsize, |stream|);
        BufsizeBounds(t, bufsize, taken);
        LeftAfter(t, stream[taken..], replies[1..], AdaptiveBufsize(t, bufsize, taken), n - 1)
  }

  /** The last iteration, counted from zero: the first that does not go on or that is a receive at
      the round limit.  End of file is reported exactly when it is a reset or a receive that finds
      nothing left of an ended stream. */
  lemma {:induction false} StopsWhere(t: Tuning, stream: seq<byte>, ended: bool, replies: seq<Reply>,
                                      bufsize: nat, rounds: nat)
    requires 1 <= bufsize
    ensures var r := Receive(t, stream, ended, replies, bufsize, rounds);
            var n := r.rounds - rounds - 1;
            && 0 <= n <= |replies| && GoesOn(t, stream, replies, bufsize, n)
            && (forall k :: 0 <= k < n && rounds + k + 1 == t.rounds ==> Retry(replies[k]))
            && (n == |replies| || !GoesOn(t, stream, replies, bufsize, n + 1)
                || (rounds + n + 1 == t.rounds && replies[n].Take?))
            && var left := LeftAfter(t, stream, replies, bufsize, n);
               (r.eof <==> n < |replies| && (Reset(replies[n]) || (replies[n].Take? && ended && left == [])))
    decreases |replies|
  {
    if replies != [] {
      match replies[0] {
        case Error(readable, _) =>
          if readable { StopsWhere(t, stream, ended, replies[1..], bufsize, rounds + 1); }
        case Take(k, slow) =>
          if stream != [] && rounds + 1 != t.rounds && !slow {
            var taken := Taken(k, bufsize, |stream|);
            BufsizeBounds(t, bufsize, taken);
            StopsWhere(t, stream[taken..], ended, replies[1..], AdaptiveBufsize(t, bufsize, taken), rounds + 1);
          }
      }
    }
  }

  function LeadingRetries(replies: seq<Reply>): (n: nat)
    ensures n <= |replies|
  {
    if replies == [] || !Retry(replies[0]) then 0 else 1 + LeadingRetries(replies[1..])
  }

  /** An event reports end of file without data, which closes the channel, exactly when after some
      retries the first other reply is a reset, or a receive from an ended stream with nothing left. */
  lemma {:induction false} EmptyEof(t: Tuning, stream: seq<byte>, ended: bool, replies: seq<Reply>,
                                    bufsize: nat, rounds: nat)
    requires 1 <= bufsize
    ensures var r := Receive(t, stream, ended, replies, bufsize, rounds);
            var n := LeadingRetries(replies);
            r.data == [] && r.eof
            <==> n < |replies| && (Reset(replies[n]) || (replies[n].Take? && ended && stream == []))
    decreases |replies|
  {
    if replies != [] && Retry(replies[0]) { EmptyEof(t, stream, ended, replies[1..], bufsize, rounds + 1); }
  }

  // ---- nothing is lost ----

  /** What is returned followed by what is left is what had arrived, for any buffer sizes and any
      errors; end of file is reported only when nothing is left, or when the last reply was a reset. */
  lemma {:induction false} NothingLost(t: Tuning, stream: seq<byte>, ended: bool, replies: seq<Reply>,
                                       bufsize: nat, rounds: nat)
    requires 1 <= bufsize
    ensures var r := Receive(t, stream, ended, replies, bufsize, rounds);
            && r.data + r.rest == stream
            && var last := r.rounds - rounds - 1;
               (r.eof ==> 0 <= last < |replies| && ((ended && r.rest == []) || Reset(replies[last])))
    decreases |replies|
  {
    if replies != [] {
      match replies[0] {
        case Error(readable, _) => if readable { NothingLost(t, stream, ended, replies[1..], bufsize, rounds + 1); }
        case Take(n, slow) =>
          if stream != [] {
            var k := Taken(n, bufsize, |stream|);
            BufsizeBounds(t, bufsize, k);
            NothingLost(t, stream[k..], ended, replies[1..], AdaptiveBufsize(t, bufsize, k), rounds + 1);
          }
      }
    }
  }

  /** One readable event: the bytes that arrived since the last one, whether the peer had finished
      by then, and the kernel's replies. */
  datatype ReadEvent = ReadEvent(arrived: seq<byte>, ended: bool, replies: seq<Reply>)

  /** All payloads handed to channel_read so far, what the kernel still holds, and whether the
      channel has been closed for end of file. */
  datatype Reading = Reading(delivered: seq<byte>, held: seq<byte>, closed: bool)

  /** The readable half of the loop body: data is delivered, and only an event without data
      closes the channel. */
  function ReadPass(t: Tuning, r: Reading, p: ReadEvent): Reading
    requires 1 <= t.initial
  {
    if r.closed then r
    else
      var got := RecvAll(t, r.held + p.arrived, p.ended, p.replies);
      Reading(r.delivered + got.data, got.rest, got.data == [] && got.eof)
  }

  /** When an event closes the channel: nothing is delivered by it then, and everything before was. */
  lemma ClosesIff(t: Tuning, r: Reading, p: ReadEvent)
    requires 1 <= t.initial && !r.closed
    ensures var n := LeadingRetries(p.replies);
            ReadPass(t, r, p).closed
            <==> n < |p.replies|
                 && (Reset(p.replies[n]) || (p.replies[n].Take? && p.ended && r.held + p.arrived == []))
  {
    EmptyEof(t, r.held + p.arrived, p.ended, p.replies, t.initial, 0);
  }

  function ReadPasses(t: Tuning, passes: seq<ReadEvent>): Reading
    requires 1 <= t.initial
  {
    if passes == [] then Reading([], [], false)
    else ReadPass(t, ReadPasses(t, passes[..|passes| - 1]), passes[|passes| - 1])
  }

  function Arrived(passes: seq<ReadEvent>): seq<byte> {
    if passes == [] then [] else Arrived(passes[..|passes| - 1]) + passes[|passes| - 1].arrived
  }

  ghost predicate Resets(passes: seq<ReadEvent>) {
    exists i, j :: 0 <= i < |passes| && 0 <= j < |passes[i].replies| && Reset(passes[i].replies[j])
  }

  /** Over any number of readable events the payloads followed by what the kernel holds are what
      arrived, while the channel is open; and when it is closed for end of file without a reset,
      every byte that had arrived was delivered first. */
  lemma {:induction false} DeliversStream(t: Tuning, passes: seq<ReadEvent>)
    requires 1 <= t.initial
    ensures var r := ReadPasses(t, passes);
            && r.delivered + r.held <= Arrived(passes)
            && (!r.closed ==> r.delivered + r.held == Arrived(passes))
            && (r.closed && !Resets(passes) ==> r.held == [])
  {
    if passes != [] {
      var k := |passes| - 1;
      var before, p := passes[..k], passes[k];
      DeliversStream(t, before);
      var r := ReadPasses(t, before);
      if Resets(before) {
        var i, j :| 0 <= i < k && 0 <= j < |before[i].replies| && Reset(before[i].replies[j]);
        assert passes[i] == before[i];
      }
      if !r.closed {
        NothingLost(t, r.held + p.arrived, p.ended, p.replies, t.initial, 0);
        assert r.delivered + (r.held + p.arrived) == r.delivered + r.held + p.arrived;
        var got := RecvAll(t, r.held + p.arrived, p.ended, p.replies);
        assert r.delivered + (got.data + got.rest) == r.delivered + got.data + got.rest;
      }
    }
  }

  // ---- one event is bounded ----

  /** The largest size that can follow a receive into `bufsize` bytes. */
  function Grown(t: Tuning, bufsize: nat): nat { Smaller(2 * bufsize, Larger(bufsize, t.max)) }

  /** The most that m receives can return when the first has room for `bufsize` bytes. */
  function MostBytes(t: Tuning, bufsize: nat, m: nat): nat
    decreases m
  {
    if m == 0 then 0 else bufsize + MostBytes(t, Grown(t, bufsize), m - 1)
  }

  function Pow2(k: nat): (p: nat)
    ensures 1 <= p
  {
    if k == 0 then 1 else 2 * Pow2(k - 1)
  }

  lemma {:induction false} MostBytesMonotone(t: Tuning, a: nat, b: nat, m: nat, n: nat)
    requires a <= b && m <= n
    ensures MostBytes(t, a, m) <= MostBytes(t, b, n)
    decreases m
  {
    if m > 0 { MostBytesMonotone(t, Grown(t, a), Grown(t, b), m - 1, n - 1); }
  }

  /** In closed form: sizes double at most, and never pass the maximum or the initial size. */
  lemma {:induction false} MostBytesBound(t: Tuning, bufsize: nat, m: nat)
    ensures MostBytes(t, bufsize, m) <= m * Larger(bufsize, t.max)
    ensures MostBytes(t, bufsize, m) <= (Pow2(m) - 1) * bufsize
    decreases m
  {
    if m > 0 {
      var g, p := Grown(t, bufsize), Pow2(m - 1);
      MostBytesBound(t, g, m - 1);
      Times(m - 1, Larger(g, t.max), Larger(bufsize, t.max));
      Times(p - 1, g, 2 * bufsize);
      Sums(bufsize, p, m, Larger(bufsize, t.max));
    }
  }

  lemma Sums(bufsize: nat, p: nat, m: nat, limit: int)
    requires bufsize <= limit
    ensures bufsize + (m - 1) * limit <= m * limit
    ensures bufsize + (p - 1) * (2 * bufsize) == (2 * p - 1) * bufsize
  {
  }

  lemma Times(k: int, a: int, b: int)
    requires k >= 0 && a <= b
    ensures k * a <= k * b
  {
  }

  /** The buffer sizes of the successful receives of one event, in order. */
  function Bufsizes(t: Tuning, stream: seq<byte>, replies: seq<Reply>, bufsize: nat, rounds: nat): seq<nat>
    requires 1 <= bufsize
    decreases |replies|
  {
    if replies == [] then []
    else match replies[0]
      case Error(readable, _) => if readable then Bufsizes(t, stream, replies[1..], bufsize, rounds + 1) else []
      case Take(n, slow) =>
        if stream == [] then []
        else if rounds + 1 == t.rounds || slow then [bufsize]
        else
          var k := Taken(n, bufsize, |stream|);
          BufsizeBounds(t, bufsize, k);
          [bufsize] + Bufsizes(t, stream[k..], replies[1..], AdaptiveBufsize(t, bufsize, k), rounds + 1)
  }

  /** Each size stays between the minimum and the maximum, or on the side where the first one was,
      and the k-th is at most the first doubled k times. */
  lemma {:induction false} BufsizesBounded(t: Tuning, stream: seq<byte>, ended: bool, replies: seq<Reply>,
                                           bufsize: nat, rounds: nat, k: nat)
    requires 1 <= bufsize && k < |Bufsizes(t, stream, replies, bufsize, rounds)|
    ensures var sizes := Bufsizes(t, stream, replies, bufsize, rounds);
            && |sizes| == Receive(t, stream, ended, replies, bufsize, rounds).receives
            && 1 <= sizes[k] <= Pow2(k) * bufsize
            && Smaller(bufsize, t.min) <= sizes[k] <= Larger(bufsize, t.max)
    decreases |replies|
  {
    hide Pow2, AdaptiveBufsize;
    AsManyAsReceives(t, stream, ended, replies, bufsize, rounds);
    match replies[0] {
      case Error(_, _) => BufsizesBounded(t, stream, ended, replies[1..], bufsize, rounds + 1, k);
      case Take(n, slow) =>
        if k == 0 {
          NotDoubled(bufsize);
        } else {
          var taken := Taken(n, bufsize, |stream|);
          BufsizeBounds(t, bufsize, taken);
          var next := AdaptiveBufsize(t, bufsize, taken);
          BufsizesBounded(t, stream[taken..], ended, replies[1..], next, rounds + 1, k - 1);
          Doubled(Bufsizes(t, stream, replies, bufsize, rounds)[k], next, bufsize, k);
        }
    }
  }

  lemma NotDoubled(size: nat)
    ensures Pow2(0) * size == size
  {
  }

  lemma Doubled(size: nat, next: nat, bufsize: nat, k: nat)
    requires k > 0 && size <= Pow2(k - 1) * next && next <= 2 * bufsize
    ensures size <= Pow2(k) * bufsize
  {
    Times(Pow2(k - 1), next, 2 * bufsize);
    assert Pow2(k - 1) * (2 * bufsize) == (2 * Pow2(k - 1)) * bufsize;
  }

  lemma {:induction false} AsManyAsReceives(t: Tuning, stream: seq<byte>, ended: bool, replies: seq<Reply>,
                                            bufsize: nat, rounds: nat)
    requires 1 <= bufsize
    ensures |Bufsizes(t, stream, replies, bufsize, rounds)|
            == Receive(t, stream, ended, replies, bufsize, rounds).receives
    decreases |replies|
  {
    if replies != [] {
      match replies[0] {
        case Error(readable, _) =>
          if readable { AsManyAsReceives(t, stream, ended, replies[1..], bufsize, rounds + 1); }
        case Take(n, slow) =>
          if stream != [] {
            var k := Taken(n, bufsize, |stream|);
            BufsizeBounds(t, bufsize, k);
            AsManyAsReceives(t, stream[k..], ended, replies[1..], AdaptiveBufsize(t, bufsize, k), rounds + 1);
          }
      }
    }
  }

  /** The size after as many full buffers in a row. */
  function AfterFull(t: Tuning, bufsize: nat, n: nat): nat {
    if n == 0 then bufsize
    else
      var before := AfterFull(t, bufsize, n - 1);
      AdaptiveBufsize(t, before, before)
  }

  /** Full buffers double the size up to the maximum, no more and no less. */
  lemma {:induction false} FullBuffersGrow(t: Tuning, bufsize: nat, n: nat)
    requires 1 <= bufsize <= t.max
    ensures AfterFull(t, bufsize, n) == Smaller(Pow2(n) * bufsize, t.max)
  {
    if n > 0 {
      FullBuffersGrow(t, bufsize, n - 1);
      Doubled(Pow2(n - 1) * bufsize, bufsize, bufsize, n);
      assert Pow2(n) * bufsize == 2 * (Pow2(n - 1) * bufsize);
    } else {
      NotDoubled(bufsize);
    }
  }

  /** The bytes of one event are bounded by the sizes its receives can have reached. */
  lemma {:induction false} BytesBounded(t: Tuning, stream: seq<byte>, ended: bool, replies: seq<Reply>,
                                        bufsize: nat, rounds: nat)
    requires 1 <= bufsize
    ensures var r := Receive(t, stream, ended, replies, bufsize, rounds);
            |r.data| <= MostBytes(t, bufsize, r.receives) && rounds < r.rounds && r.receives <= r.rounds - rounds
    decreases |replies|
  {
    if replies != [] {
      match replies[0] {
        case Error(readable, _) => if readable { BytesBounded(t, stream, ended, replies[1..], bufsize, rounds + 1); }
        case Take(n, slow) =>
          if stream != [] {
            var k := Taken(n, bufsize, |stream|);
            BufsizeBounds(t, bufsize, k);
            var next := AdaptiveBufsize(t, bufsize, k);
            BytesBounded(t, stream[k..], ended, replies[1..], next, rounds + 1);
            var m := Receive(t, stream[k..], ended, replies[1..], next, rounds + 1).receives;
            MostBytesMonotone(t, next, Grown(t, bufsize), m, m);
            assert |stream[..k]| == k;
          }
      }
    }
  }

  /** The loop goes beyond _ROUNDS iterations exactly when the kernel's replies bring it to iteration
      _ROUNDS and the reply there is an error with a readable socket: its `continue` skips the
      test for equality. */
  lemma {:induction false} LimitSkipped(t: Tuning, stream: seq<byte>, ended: bool, replies: seq<Reply>,
                                        bufsize: nat, rounds: nat)
    requires 1 <= bufsize && rounds < t.rounds
    ensures var last := t.rounds - rounds - 1;
            Receive(t, stream, ended, replies, bufsize, rounds).rounds > t.rounds
            <==> GoesOn(t, stream, replies, bufsize, last) && last < |replies| && Retry(replies[last])
    decreases |replies|
  {
    BytesBounded(t, stream, ended, replies, bufsize, rounds);
    if replies != [] {
      match replies[0] {
        case Error(readable, _) =>
          if readable {
            if rounds + 1 < t.rounds {
              LimitSkipped(t, stream, ended, replies[1..], bufsize, rounds + 1);
            } else {
              BytesBounded(t, stream, ended, replies[1..], bufsize, rounds + 1);
            }
          }
        case Take(n, slow) =>
          if stream != [] && rounds + 1 != t.rounds && !slow {
            var k := Taken(n, bufsize, |stream|);
            BufsizeBounds(t, bufsize, k);
            LimitSkipped(t, stream[k..], ended, replies[1..], AdaptiveBufsize(t, bufsize, k), rounds + 1);
          }
      }
    }
  }

  /** One readable event without such an error does at most _ROUNDS receives and returns no more than
      _ROUNDS buffers can hold. */
  lemma EventIsBounded(t: Tuning, stream: seq<byte>, ended: bool, replies: seq<Reply>)
    requires 1 <= t.initial && 1 <= t.rounds
    requires |replies| < t.rounds || !Retry(replies[t.rounds - 1])
    ensures var r := RecvAll(t, stream, ended, replies);
            && r.receives <= r.rounds <= t.rounds
            && |r.data| <= t.rounds * Larger(t.initial, t.max)
            && |r.data| <= (Pow2(t.rounds) - 1) * t.initial
  {
    LimitSkipped(t, stream, ended, replies, t.initial, 0);
    BytesBounded(t, stream, ended, replies, t.initial, 0);
    var r := RecvAll(t, stream, ended, replies);
    MostBytesMonotone(t, t.initial, t.initial, r.receives, t.rounds);
    MostBytesBound(t, t.initial, t.rounds);
  }

  /** With such errors there is no bound at all: after _ROUNDS of them any number of receives follows. */
  lemma NoBoundAfterRetries(t: Tuning, stream: seq<byte>, ended: bool)
    requires 1 <= t.initial && 1 <= t.rounds
    ensures var replies := seq(t.rounds, i => Error(true, false)) + seq(|stream|, i => Take(1, false));
            RecvAll(t, stream, ended, replies).receives == |stream|
  {
    Retries(t, stream, ended, t.rounds, 0);
    TakesAll(t, stream, ended, t.initial, t.rounds);
  }

  lemma {:induction false} Retries(t: Tuning, stream: seq<byte>, ended: bool, left: nat, rounds: nat)
    requires 1 <= t.initial
    ensures var takes := seq(|stream|, i => Take(1, false));
            Receive(t, stream, ended, seq(left, i => Error(true, false)) + takes, t.initial, rounds)
            == Receive(t, stream, ended, takes, t.initial, rounds + left)
  {
    var takes := seq(|stream|, i => Take(1, false));
    if left == 0 {
      assert seq(0, i => Error(true, false)) + takes == takes;
    } else {
      var errors := seq(left, i => Error(true, false));
      assert (errors + takes)[1..] == seq(left - 1, i => Error(true, false)) + takes;
      Retries(t, stream, ended, left - 1, rounds + 1);
    }
  }

  lemma {:induction false} TakesAll(t: Tuning, stream: seq<byte>, ended: bool, bufsize: nat, rounds: nat)
    requires 1 <= bufsize && t.rounds <= rounds
    ensures Receive(t, stream, ended, seq(|stream|, i => Take(1, false)), bufsize, rounds).receives == |stream|
    decreases |stream|
  {
    if stream != [] {
      var takes := seq(|stream|, i => Take(1, false));
      assert takes[1..] == seq(|stream[1..]|, i => Take(1, false));
      BufsizeBounds(t, bufsize, 1);
      TakesAll(t, stream[1..], ended, AdaptiveBufsize(t, bufsize, 1), rounds + 1);
    }
  }
}
