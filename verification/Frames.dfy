/** The fixed-size frames of the echo runner: header and filler, validation, and the client that
    cuts a byte stream back into frames. */
module Frames {
  import opened Pipeline

  const WORD := 0x1_0000_0000
  const HEADER_SIZE := 8

  predicate Fits(n: int) { 0 <= n < WORD }

  /** struct "!I": four bytes, most significant first. */
  function Pack(n: int): (s: seq<byte>)
    requires Fits(n)
    ensures |s| == 4
  {
    var high := n / 0x100;
    var top := high / 0x100;
    [top / 0x100, top % 0x100, high % 0x100, n % 0x100]
  }

  function Unpack(s: seq<byte>): (n: int)
    requires |s| == 4
    ensures Fits(n)
  {
    Word(s[0], s[1], s[2], s[3])
  }

  function Word(a: int, b: int, c: int, d: int): int { ((a * 0x100 + b) * 0x100 + c) * 0x100 + d }

  lemma Digit(n: int, q: int, r: int)
    requires 0 <= r < 0x100
    ensures n == q * 0x100 + r <==> n / 0x100 == q && n % 0x100 == r
  {
  }

  lemma Digits(a: int, b: int, c: int, d: int, n: int)
    requires 0 <= a < 0x100 && 0 <= b < 0x100 && 0 <= c < 0x100 && 0 <= d < 0x100
    ensures var high := n / 0x100;
            var top := high / 0x100;
            n == Word(a, b, c, d) <==> top / 0x100 == a && top % 0x100 == b && high % 0x100 == c && n % 0x100 == d
  {
    Digit(n, (a * 0x100 + b) * 0x100 + c, d);
    Digit(n / 0x100, a * 0x100 + b, c);
    Digit(n / 0x100 / 0x100, a, b);
  }

  /** Packing and unpacking are each other's inverse. */
  lemma PackUnpack(n: int, s: seq<byte>)
    requires Fits(n) && |s| == 4
    ensures Pack(n) == s <==> n == Unpack(s)
  {
    hide Word;
    Digits(s[0], s[1], s[2], s[3], n);
  }

  function Fill(b: byte, n: nat): (s: seq<byte>)
    ensures |s| == n && forall i :: 0 <= i < n ==> s[i] == b
  {
    seq(n, i => b)
  }

  datatype Made = Frame(bytes: seq<byte>) | TooSmall | OutOfRange

  /** _make_frame; struct raises for numbers that do not fit. */
  function MakeFrame(id: int, sequence: int, size: int): Made {
    if size < HEADER_SIZE then TooSmall
    else if !Fits(id) || !Fits(sequence) then OutOfRange
    else Frame(Pack(id) + Pack(sequence) + Fill((id + sequence) % 251, size - HEADER_SIZE))
  }

  datatype Verdict = Good | TooShort | WrongId | WrongSequence | WrongPayload

  /** _validate_frame; unpacking raises for a frame shorter than the header. */
  function ValidateFrame(frame: seq<byte>, id: int, expected: int): Verdict {
    if |frame| < HEADER_SIZE then TooShort
    else if Unpack(frame[..4]) != id then WrongId
    else if Unpack(frame[4..8]) != expected then WrongSequence
    else if frame[8..] != Fill((id + expected) % 251, |frame| - HEADER_SIZE) then WrongPayload
    else Good
  }

  /** A frame is valid for an id and a sequence number exactly when making the frame of that id,
      number and length gives it back: for all numbers and all byte strings. */
  lemma ValidIffMade(frame: seq<byte>, id: int, sequence: int)
    ensures ValidateFrame(frame, id, sequence) == Good <==> MakeFrame(id, sequence, |frame|) == Frame(frame)
  {
    hide Pack, Unpack;
    if |frame| >= HEADER_SIZE && Fits(id) && Fits(sequence) {
      var a, b, c := frame[..4], frame[4..8], frame[8..];
      PackUnpack(id, a);
      PackUnpack(sequence, b);
      assert frame == a + b + c;
      var m := MakeFrame(id, sequence, |frame|).bytes;
      assert m[..4] == Pack(id) && m[4..8] == Pack(sequence);
      assert m[8..] == Fill((id + sequence) % 251, |frame| - HEADER_SIZE);
    }
  }

  // ---- the client ----

  /** _ClientState with the part of _RunState it reports to.  `written` are the frames handed to
      channel.write; `verdicts` the errors recorded. */
  datatype Client = Client(
    id: nat,
    messages: nat,
    size: nat,
    sequential: bool,
    connected: bool,          // the channel is set
    buffer: seq<byte>,
    written: seq<seq<byte>>,  // one per sent message
    sentAt: set<nat>,
    received: nat,
    completed: bool,
    verdicts: seq<Verdict>,
    completions: nat,
    latencies: nat)

  /** What the runner makes sure of before it starts. */
  predicate Runnable(c: Client) { c.size >= HEADER_SIZE && Fits(c.id) && c.messages <= WORD }

  function NewClient(id: nat, messages: nat, size: nat, sequential: bool): Client {
    Client(id, messages, size, sequential, false, [], [], {}, 0, false, [], 0, 0)
  }

  function Sent(c: Client): Client
    requires Runnable(c)
  {
    var n := |c.written|;
    if !c.connected || n >= c.messages then c
    else c.(written := c.written + [MakeFrame(c.id, n, c.size).bytes], sentAt := c.sentAt + {n})
  }

  /** _handle_frame. */
  function Handled(c: Client, frame: seq<byte>): Client
    requires Runnable(c)
  {
    var verdict := ValidateFrame(frame, c.id, c.received);
    if verdict != Good then c.(verdicts := c.verdicts + [verdict])
    else
      var d := c.(sentAt := c.sentAt - {c.received},
                  latencies := c.latencies + if c.received in c.sentAt then 1 else 0,
                  received := c.received + 1);
      if d.received == d.messages && !d.completed then d.(completed := true, completions := d.completions + 1)
      else if d.sequential then Sent(d)
      else d
  }

  /** The loop of feed: whole frames are cut off the front of the buffer and handled in order. */
  function CutFrames(c: Client): Client
    requires Runnable(c)
    decreases |c.buffer|
  {
    if |c.buffer| < c.size then c
    else CutFrames(Handled(c.(buffer := c.buffer[c.size..]), c.buffer[..c.size]))
  }

  function Fed(c: Client, data: seq<byte>): Client
    requires Runnable(c)
  {
    CutFrames(c.(buffer := c.buffer + data))
  }

  /** With something left to send, a round of send_all's loop changes nothing, so that the loop goes on
      for ever, exactly when the client has no channel. */
  lemma StuckWithoutChannel(c: Client)
    requires Runnable(c) && |c.written| < c.messages
    ensures Sent(c) == c <==> !c.connected
  {
    if c.connected { assert |Sent(c).written| == |c.written| + 1; }
  }

  class ClientState {
    const id: nat
    const messages: nat
    const size: nat
    const sequential: bool
    var connected: bool
    var buffer: seq<byte>
    var written: seq<seq<byte>>
    var sentAt: set<nat>
    var received: nat
    var completed: bool
    var verdicts: seq<Verdict>
    var completions: nat
    var latencies: nat

    constructor (id: nat, messages: nat, size: nat, sequential: bool)
      ensures Value() == NewClient(id, messages, size, sequential)
    {
      this.id, this.messages, this.size, this.sequential := id, messages, size, sequential;
      connected, buffer, written, sentAt, received := false, [], [], {}, 0;
      completed, verdicts, completions, latencies := false, [], 0, 0;
    }

    function Value(): Client
      reads this
    {
      Client(id, messages, size, sequential, connected, buffer, written, sentAt, received,
             completed, verdicts, completions, latencies)
    }

    /** The runner hands over the channel. */
    method SetChannel()
      modifies this`connected
      ensures Value() == old(Value()).(connected := true)
    {
      connected := true;
    }

    method SendNext()
      requires Runnable(Value())
      modifies this`written, this`sentAt
      ensures Value() == Sent(old(Value()))
    {
      var sequence := |written|;
      if !connected || sequence >= messages { return; }
      sentAt := sentAt + {sequence};
      written := written + [MakeFrame(id, sequence, size).bytes];
    }

    /** send_all: the frames from the next one to the last.  It returns only if there is a
        channel or nothing is left to send, see `StuckWithoutChannel`. */
    method SendAll()
      requires Runnable(Value()) && (connected || |written| >= messages)
      modifies this`written, this`sentAt
      ensures |written| == if |old(written)| < messages then messages else |old(written)|
      ensures old(written) <= written
      ensures forall k :: |old(written)| <= k < |written| ==> MakeFrame(id, k, size) == Frame(written[k])
      ensures forall k: nat :: k in sentAt <==> k in old(sentAt) || |old(written)| <= k < |written|
    {
      while |written| < messages
        invariant old(written) <= written && (|written| <= messages || written == old(written))
        invariant forall k :: |old(written)| <= k < |written| ==> MakeFrame(id, k, size) == Frame(written[k])
        invariant forall k: nat :: k in sentAt <==> k in old(sentAt) || |old(written)| <= k < |written|
        decreases messages - |written|
      {
        SendNext();
      }
    }

    method HandleFrame(frame: seq<byte>)
      requires Runnable(Value())
      modifies this
      ensures Value() == Handled(old(Value()), frame)
    {
      var verdict := ValidateFrame(frame, id, received);
      if verdict != Good {
        verdicts := verdicts + [verdict];
        return;
      }
      if received in sentAt {
        sentAt := sentAt - {received};
        latencies := latencies + 1;
      }
      received := received + 1;
      if received == messages && !completed {
        completed := true;
        completions := completions + 1;
        return;
      }
      if sequential { SendNext(); }
    }

    method Feed(data: seq<byte>)
      requires Runnable(Value())
      modifies this
      ensures Value() == Fed(old(Value()), data)
    {
      buffer := buffer + data;
      while |buffer| >= size
        invariant Runnable(Value()) && CutFrames(Value()) == Fed(old(Value()), data)
        decreases |buffer|
      {
        var frame := buffer[..size];
        buffer := buffer[size..];
        HandleFrame(frame);
      }
    }
  }

  // ---- cutting does not depend on how the bytes arrive ----

  /** Handling a frame neither looks at the buffer nor changes it. */
  lemma HandleIgnoresBuffer(c: Client, frame: seq<byte>, buffer: seq<byte>)
    requires Runnable(c)
    ensures Handled(c.(buffer := buffer), frame) == Handled(c, frame).(buffer := buffer)
    ensures Handled(c, frame).buffer == c.buffer && Runnable(Handled(c, frame))
    ensures var r := Handled(c, frame); r.size == c.size && r.id == c.id && r.messages == c.messages
  {
  }

  lemma CutAppended(a: seq<byte>, b: seq<byte>, n: nat)
    requires n <= |a|
    ensures (a + b)[..n] == a[..n] && (a + b)[n..] == a[n..] + b
  {
  }

  lemma {:induction false} CutThenMore(c: Client, more: seq<byte>)
    requires Runnable(c)
    ensures Runnable(CutFrames(c))
    ensures CutFrames(c.(buffer := c.buffer + more)) == Fed(CutFrames(c), more)
    decreases |c.buffer|
  {
    hide Handled;
    if |c.buffer| >= c.size {
      var frame, rest := c.buffer[..c.size], c.buffer[c.size..];
      var d := c.(buffer := rest);
      HandleIgnoresBuffer(d, frame, rest + more);
      CutThenMore(Handled(d, frame), more);
      var whole := c.(buffer := c.buffer + more);
      CutAppended(c.buffer, more, c.size);
      assert whole.(buffer := rest + more) == d.(buffer := rest + more);
    }
  }

  /** Feeding a and then b is feeding a + b, whatever the bytes. */
  lemma FeedFeed(c: Client, a: seq<byte>, b: seq<byte>)
    requires Runnable(c)
    ensures Runnable(Fed(c, a))
    ensures Fed(Fed(c, a), b) == Fed(c, a + b)
  {
    CutThenMore(c.(buffer := c.buffer + a), b);
    assert c.buffer + a + b == c.buffer + (a + b);
  }

  function Concat(pieces: seq<seq<byte>>): seq<byte> {
    if pieces == [] then [] else Concat(pieces[..|pieces| - 1]) + pieces[|pieces| - 1]
  }

  function FedAll(c: Client, pieces: seq<seq<byte>>): (r: Client)
    requires Runnable(c)
    ensures Runnable(r)
  {
    if pieces == [] then c
    else
      var d := FedAll(c, pieces[..|pieces| - 1]);
      CutThenMore(d.(buffer := d.buffer + pieces[|pieces| - 1]), []);
      Fed(d, pieces[|pieces| - 1])
  }

  /** Any split of a stream into reads gives the same client. */
  lemma {:induction false} SplitsDoNotMatter(c: Client, pieces: seq<seq<byte>>)
    requires Runnable(c) && |c.buffer| < c.size
    ensures FedAll(c, pieces) == Fed(c, Concat(pieces))
  {
    if pieces == [] {
      assert c.buffer + [] == c.buffer;
    } else {
      var init := pieces[..|pieces| - 1];
      SplitsDoNotMatter(c, init);
      FeedFeed(c, Concat(init), pieces[|pieces| - 1]);
    }
  }

  // ---- arbitrary bytes ----

  function HandledAll(c: Client, frames: seq<seq<byte>>): (r: Client)
    requires Runnable(c)
    ensures Runnable(r)
    decreases |frames|
  {
    if frames == [] then c
    else
      HandleIgnoresBuffer(c, frames[0], c.buffer);
      HandledAll(Handled(c, frames[0]), frames[1..])
  }

  lemma CutOne(c: Client)
    requires Runnable(c)
    ensures |c.buffer| < c.size ==> CutFrames(c) == c
    ensures |c.buffer| >= c.size ==>
              CutFrames(c) == CutFrames(Handled(c.(buffer := c.buffer[c.size..]), c.buffer[..c.size]))
  {
    hide Handled;
  }

  /** Whatever the bytes, feed hands over exactly the successive pieces of the frame size, in order,
      and keeps the remainder. */
  lemma {:induction false} FeedHandsOverPieces(c: Client) returns (frames: seq<seq<byte>>, rest: seq<byte>)
    requires Runnable(c)
    ensures |rest| < c.size && forall i :: 0 <= i < |frames| ==> |frames[i]| == c.size
    ensures Concat(frames) + rest == c.buffer
    ensures CutFrames(c) == HandledAll(c.(buffer := rest), frames)
    decreases |c.buffer|
  {
    hide Handled, CutFrames, HandledAll, Concat;
    CutOne(c);
    NoPiece(c);
    if |c.buffer| < c.size {
      frames, rest := [], c.buffer;
      assert c.(buffer := rest) == c;
    } else {
      var frame, left := c.buffer[..c.size], c.buffer[c.size..];
      HandleIgnoresBuffer(c, frame, left);
      var d := Handled(c.(buffer := left), frame);
      var more;
      more, rest := FeedHandsOverPieces(d);
      HandleIgnoresBuffer(c, frame, rest);
      OneMorePiece(c.(buffer := rest), frame, more);
      assert c.buffer == frame + left;
      frames := [frame] + more;
    }
  }

  lemma NoPiece(c: Client)
    requires Runnable(c)
    ensures HandledAll(c, []) == c && Concat([]) == []
  {
  }

  lemma OneMorePiece(c: Client, frame: seq<byte>, frames: seq<seq<byte>>)
    requires Runnable(c)
    ensures Concat([frame] + frames) == frame + Concat(frames)
    ensures Runnable(Handled(c, frame)) && HandledAll(c, [frame] + frames) == HandledAll(Handled(c, frame), frames)
  {
    hide Handled;
    HandleIgnoresBuffer(c, frame, c.buffer);
    ConcatFront(frame, frames);
    assert ([frame] + frames)[1..] == frames;
  }

  lemma {:induction false} ConcatFront(piece: seq<byte>, pieces: seq<seq<byte>>)
    ensures Concat([piece] + pieces) == piece + Concat(pieces)
    decreases |pieces|
  {
    var all := [piece] + pieces;
    if pieces == [] {
      assert all[..0] == [] && all == [piece];
      assert Concat(all) == Concat([]) + piece;
    } else {
      var init, last := pieces[..|pieces| - 1], pieces[|pieces| - 1];
      assert all[..|all| - 1] == [piece] + init && all[|all| - 1] == last;
      ConcatFront(piece, init);
    }
  }


  // ---- a stream of good frames ----

  /** The bytes of frames from..to - 1 of one connection. */
  function FrameStream(id: nat, from: nat, to: nat, size: nat): (s: seq<byte>)
    requires Fits(id) && from <= to <= WORD && size >= HEADER_SIZE
    ensures |s| == (to - from) * size
    decreases WORD - from
  {
    if from == to then []
    else
      assert (to - from) * size == size + (to - from - 1) * size;
      MakeFrame(id, from, size).bytes + FrameStream(id, from + 1, to, size)
  }

  lemma {:induction false} FrameStreamMore(id: nat, from: nat, to: nat, size: nat)
    requires Fits(id) && from <= to < WORD && size >= HEADER_SIZE
    ensures FrameStream(id, from, to + 1, size) == FrameStream(id, from, to, size) + MakeFrame(id, to, size).bytes
    decreases WORD - from
  {
    hide MakeFrame;
    MadeSize(id, from, size);
    MadeSize(id, to, size);
    if from < to { FrameStreamMore(id, from + 1, to, size); }
  }

  /** The frames written so far are those numbered 0, 1, ... */
  ghost predicate InOrder(c: Client) {
    |c.written| <= c.messages && forall k :: 0 <= k < |c.written| ==> MakeFrame(c.id, k, c.size) == Frame(c.written[k])
  }

  /** Whatever is fed, the client only ever adds the next frames in order. */
  lemma {:induction false} FeedKeepsOrder(c: Client)
    requires Runnable(c) && InOrder(c)
    ensures InOrder(CutFrames(c))
    decreases |c.buffer|
  {
    hide ValidateFrame;
    if |c.buffer| >= c.size {
      var d := c.(buffer := c.buffer[c.size..]);
      HandleIgnoresBuffer(d, c.buffer[..c.size], d.buffer);
      FeedKeepsOrder(Handled(d, c.buffer[..c.size]));
    }
  }

  lemma {:induction false} WrittenIsStream(c: Client, n: nat)
    requires Runnable(c) && InOrder(c) && n <= |c.written|
    ensures Concat(c.written[..n]) == FrameStream(c.id, 0, n, c.size)
  {
    hide MakeFrame;
    if n > 0 {
      assert c.written[..n][..n - 1] == c.written[..n - 1];
      WrittenIsStream(c, n - 1);
      FrameStreamMore(c.id, 0, n - 1, c.size);
    }
  }

  /** The next n good frames and a piece of another one, however they arrive: n messages more are
      received, in order and without an error, the piece is kept, and the client is complete
      exactly when that was the last message. */
  lemma {:induction false} GoodFrames(c: Client, n: nat, tail: seq<byte>)
    requires Runnable(c) && c.received + n <= WORD && |tail| < c.size
    ensures var r := CutFrames(c.(buffer := FrameStream(c.id, c.received, c.received + n, c.size) + tail));
            && r.received == c.received + n
            && r.buffer == tail
            && r.verdicts == c.verdicts
            && (c.completed ==> r.completed)
            && (!c.completed && c.received < c.messages ==> (r.completed <==> r.received >= c.messages))
    decreases n
  {
    hide Pack, Unpack, MakeFrame, ValidateFrame, Sent, Handled;
    if n == 0 {
      assert [] + tail == tail;
    } else {
      var made := MakeFrame(c.id, c.received, c.size).bytes by { MadeSize(c.id, c.received, c.size); }
      var rest := FrameStream(c.id, c.received + 1, c.received + n, c.size) + tail;
      OneGoodFrame(c, made, rest);
      var whole := FrameStream(c.id, c.received, c.received + n, c.size) + tail;
      assert whole == made + rest;
      assert whole[..c.size] == made && whole[c.size..] == rest;
      var e := Handled(c.(buffer := rest), made);
      GoodFrames(e, n - 1, tail);
      assert e.(buffer := rest) == e;
      assert CutFrames(c.(buffer := whole)) == CutFrames(e);
    }
  }

  lemma MadeSize(id: int, sequence: int, size: nat)
    requires Fits(id) && Fits(sequence) && size >= HEADER_SIZE
    ensures var m := MakeFrame(id, sequence, size); m.Frame? && |m.bytes| == size
  {
  }

  lemma OneGoodFrame(c: Client, made: seq<byte>, rest: seq<byte>)
    requires Runnable(c) && Fits(c.received) && MakeFrame(c.id, c.received, c.size) == Frame(made)
    ensures |made| == c.size
    ensures var e := Handled(c.(buffer := rest), made);
            && Runnable(e) && e.size == c.size && e.id == c.id && e.messages == c.messages
            && e.received == c.received + 1 && e.buffer == rest && e.verdicts == c.verdicts
            && (e.completed <==> c.completed || c.received + 1 == c.messages)
  {
    hide Pack, Unpack;
    MadeSize(c.id, c.received, c.size);
    ValidIffMade(made, c.id, c.received);
    HandleIgnoresBuffer(c.(buffer := rest), made, rest);
    hide ValidateFrame;
  }

  /** Whatever part of the frames has arrived: some whole frames and less than one more. */
  lemma {:induction false} WholeFrames(id: nat, from: nat, to: nat, size: nat, part: seq<byte>)
    returns (n: nat, tail: seq<byte>)
    requires Fits(id) && from <= to <= WORD && size >= HEADER_SIZE
    requires part <= FrameStream(id, from, to, size)
    ensures from + n <= to && |tail| < size
    ensures part == FrameStream(id, from, from + n, size) + tail
    ensures part == FrameStream(id, from, to, size) ==> from + n == to
    decreases WORD - from
  {
    hide MakeFrame;
    if |part| < size {
      n, tail := 0, part;
    } else {
      MadeSize(id, from, size);
      var frame, rest := part[..size], part[size..];
      var whole := FrameStream(id, from, to, size);
      assert frame == whole[..size] && rest <= whole[size..];
      assert whole[size..] == FrameStream(id, from + 1, to, size);
      n, tail := WholeFrames(id, from + 1, to, size, rest);
      n := n + 1;
      assert part == frame + rest;
    }
  }

  lemma {:induction false} CutKeepsParameters(c: Client)
    requires Runnable(c)
    ensures var r := CutFrames(c);
            r.id == c.id && r.size == c.size && r.messages == c.messages && r.sequential == c.sequential
    decreases |c.buffer|
  {
    hide ValidateFrame, MakeFrame;
    if |c.buffer| >= c.size {
      var d := c.(buffer := c.buffer[c.size..]);
      HandleIgnoresBuffer(d, c.buffer[..c.size], d.buffer);
      CutKeepsParameters(Handled(d, c.buffer[..c.size]));
    }
  }

  /** A client that may have sent but has received nothing. */
  ghost predicate NothingReceived(c: Client) {
    InOrder(c) && c.received == 0 && c.buffer == [] && c.verdicts == [] && !c.completed
  }

  // ---- sequential clients ----

  /** The next frame is out and no further one, as long as there are messages to send. */
  predicate OneAhead(c: Client) {
    |c.written| == if c.received + 1 < c.messages then c.received + 1 else c.messages
  }

  /** A connected sequential client sends its next frame on every good one and not otherwise, so
      that exactly one is outstanding until all are sent, whatever is fed. */
  lemma {:induction false} OneOutstanding(c: Client)
    requires Runnable(c) && c.sequential && c.connected && OneAhead(c)
    ensures OneAhead(CutFrames(c)) && c.written <= CutFrames(c).written
    decreases |c.buffer|
  {
    hide ValidateFrame, MakeFrame;
    if |c.buffer| >= c.size {
      var d := c.(buffer := c.buffer[c.size..]);
      HandleIgnoresBuffer(d, c.buffer[..c.size], d.buffer);
      OneOutstanding(Handled(d, c.buffer[..c.size]));
    }
  }

  // ---- what is counted ----

  /** A frame counts exactly if it is the frame of this client with the next number; anything else
      is recorded as an error and changes nothing. */
  lemma FrameCounts(c: Client, frame: seq<byte>)
    requires Runnable(c)
    ensures var r := Handled(c, frame);
            if MakeFrame(c.id, c.received, |frame|) == Frame(frame) then
              r.received == c.received + 1 && r.verdicts == c.verdicts
            else
              |r.verdicts| == |c.verdicts| + 1 && r == c.(verdicts := r.verdicts)
  {
    hide MakeFrame, ValidateFrame;
    ValidIffMade(frame, c.id, c.received);
  }

  /** The frames sent and not yet back are timed, each of those back has given one latency, and
      completion has been reported exactly once if at all. */
  ghost predicate Timed(c: Client) {
    && c.received <= |c.written|
    && (forall k: nat :: k in c.sentAt <==> c.received <= k < |c.written|)
    && c.latencies == c.received
    && c.completions == if c.completed then 1 else 0
  }

  /** All frames are sent beforehand, or one at a time. */
  predicate Paced(c: Client) { c.sequential ==> c.connected && OneAhead(c) }

  lemma FrameKeepsTimes(c: Client, frame: seq<byte>)
    requires Runnable(c) && Paced(c) && Timed(c)
    ensures var r := Handled(c, frame);
            Runnable(r) && Paced(r) && (Timed(r) || r.received > |r.written|)
  {
    hide ValidateFrame, MakeFrame;
  }

  /** This is so as long as no more frames come back than were sent. */
  lemma {:induction false} FeedKeepsTimes(c: Client)
    requires Runnable(c) && Paced(c) && Timed(c)
    ensures var r := CutFrames(c); r.received <= |r.written| ==> Timed(r)
    decreases |c.buffer|
  {
    hide Handled, Timed, Paced;
    if |c.buffer| >= c.size {
      var d := c.(buffer := c.buffer[c.size..]);
      HandleIgnoresBuffer(d, c.buffer[..c.size], d.buffer);
      BufferAside(c, d.buffer);
      FrameKeepsTimes(d, c.buffer[..c.size]);
      var e := Handled(d, c.buffer[..c.size]);
      if Timed(e) { FeedKeepsTimes(e); } else { NeverAgain(e); }
    }
  }

  lemma BufferAside(c: Client, buffer: seq<byte>)
    ensures Paced(c) ==> Paced(c.(buffer := buffer))
    ensures Timed(c) ==> Timed(c.(buffer := buffer))
  {
  }

  /** A client that has received more than it sent stays so. */
  lemma {:induction false} NeverAgain(c: Client)
    requires Runnable(c)
    ensures var r := CutFrames(c); c.received - |c.written| <= r.received - |r.written|
    decreases |c.buffer|
  {
    hide ValidateFrame, MakeFrame;
    if |c.buffer| >= c.size {
      var d := c.(buffer := c.buffer[c.size..]);
      HandleIgnoresBuffer(d, c.buffer[..c.size], d.buffer);
      NeverAgain(Handled(d, c.buffer[..c.size]));
    }
  }
}
