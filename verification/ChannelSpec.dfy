/** What a channel does, told simply: whether it has come up, its write queue, the bytes its
    handler was given.  No interest, no futures, no other events.  Every run of module Lifecycle
    is a run of this machine. */
module ChannelSpec {
  import opened Pipeline
  import opened Lifecycle
  import Writability

  /** The payloads of all channel_read calls. */
  function Payloads(trace: seq<Event>): seq<byte> {
    if trace == [] then []
    else
      var last := trace[|trace| - 1];
      Payloads(trace[..|trace| - 1]) + if last.Read? then last.data else []
  }

  /** What the kernel's answers to one check amount to. */
  datatype Verdict = Accepted | Refused | Undecided

  function VerdictOf(tls: bool, k: Answer): Verdict {
    if k.connectFailed || (tls && k.handshake.Fails?) then Refused
    else if !tls || k.handshake.Done? then Accepted
    else Undecided
  }

  datatype Simple = Simple(tls: bool, up: bool, pipe: Pipe, received: seq<byte>)

  predicate Usable(s: Simple) { s.up && s.pipe.open }

  ghost function Queue(s: Simple, a: QueueAction): Simple
    requires Inv(s.pipe)
  {
    s.(pipe := Step(s.pipe, a))
  }

  /** An open channel is checked: a refusal closes it. */
  ghost function Checked(s: Simple, k: Answer): (r: Simple)
    requires Inv(s.pipe)
    ensures Inv(r.pipe)
  {
    if s.up then s
    else match VerdictOf(s.tls, k)
      case Accepted => s.(up := true)
      case Refused => Queue(s, DoShut)
      case Undecided => s
  }

  /** A usable channel is given what was received, or closed at the end of the stream. */
  ghost function Received(s: Simple, data: seq<byte>, eof: bool): Simple
    requires Inv(s.pipe)
  {
    if !Usable(s) then s
    else if data != [] then s.(received := s.received + data)
    else if eof then Queue(s, DoShut)
    else s
  }

  /** Writable first: a check, and if that succeeds a pass.  Then readable: a check, and if that
      succeeds the data. */
  ghost function OnReady(s: Simple, a: Action): Simple
    requires Inv(s.pipe) && a.Ready?
  {
    var w := if a.event.write then Checked(s, a.first) else s;
    if a.event.write && !Usable(w) then w
    else
      var sent := if a.event.write then Queue(w, DoPass(a.offer)) else w;
      if a.event.read && sent.pipe.open then Received(Checked(sent, a.second), a.data, a.eof) else sent
  }

  ghost function Next(s: Simple, a: Action): (r: Simple)
    requires Inv(s.pipe)
    ensures Inv(r.pipe)
  {
    match a
    case Ready(_, _, _, _, _, _) => if s.pipe.open then OnReady(s, a) else s
    case Write(data, offer) => Queue(s, DoWrite(s.up, data, offer))
    case CloseGracefully => Queue(s, DoCloseGracefully(s.up))
    case CloseForcibly => Queue(s, DoShut)
    case ConnectTimeout => if s.pipe.open && !s.up then Queue(s, DoShut) else s
    case _ => s
  }

  ghost function SimpleRun(s: Simple, actions: seq<Action>): (r: Simple)
    requires Inv(s.pipe)
    ensures Inv(r.pipe)
    decreases |actions|
  {
    if actions == [] then s else SimpleRun(Next(s, actions[0]), actions[1..])
  }

  function Abs(c: Channel): Simple { Simple(c.tls, c.everActive, c.pipe, Payloads(c.trace)) }

  // ---- step by step ----

  lemma FirePayloads(c: Channel, e: Event)
    ensures Payloads(Fire(c, e).trace) == Payloads(c.trace) + if e.Read? then e.data else []
  {
    assert Fire(c, e).trace[..|c.trace|] == c.trace;
  }

  /** Only Read events carry payloads. */
  lemma QuietFire(c: Channel, e: Event)
    requires !e.Read?
    ensures Abs(Fire(c, e)) == Abs(c)
  {
    FirePayloads(c, e);
  }

  lemma WritabilityAbs(c: Channel)
    ensures Abs(CheckWritability(c)) == Abs(c)
  {
    QuietFire(c.(writable := !c.writable), WritabilityChanged);
  }

  lemma CloseAbs(c: Channel)
    requires LifeInv(c)
    ensures Abs(Close(c)) == Queue(Abs(c), DoShut)
  {
    hide LifeInv, Inv, Close, Shut, Payloads;
    InvOf(c);
    CloseKeeps(c);
    CloseQuiet(c);
  }

  lemma ActivateAbs(c: Channel)
    requires !c.active
    ensures Abs(Activate(c)) == Abs(c).(up := true)
  {
    QuietFire(c.(active := true, everActive := true), Active);
  }

  lemma CheckAbs(c: Channel, k: Answer)
    requires LifeInv(c) && !c.closed
    ensures var (a, ok) := CheckActive(c, k);
            Abs(a) == Checked(Abs(c), k) && ok == Usable(Abs(a))
  {
    hide Inv, Shut, Close, PhaseOf, Calm, Payloads, Activate;
    CloseAbs(c);
    ShutEmpties(c.pipe);
    QuietFire(c.(handshakeDone := true), HandshakeComplete);
    if !c.everActive {
      ActivateAbs(c);
      ActivateAbs(Fire(c.(handshakeDone := true), HandshakeComplete));
    }
  }

  /** A pass of the channel is a pass of its queue. */
  lemma SendPendingAbs(c: Channel, offer: nat)
    requires LifeInv(c) && c.active
    ensures Abs(SendPending(c, offer)) == Queue(Abs(c), DoPass(offer))
  {
    hide Inv, Shut, Close, Payloads, PhaseOf, Calm, Data, Drop, Sendable, Step;
    SendPendingKeeps(c, offer);
    Sizes(c.pipe);
    var n := Min(offer, Sendable(c.pipe.pendings));
    FlushKeepsInv(c.pipe, n);
    var f := c.(pipe := Flush(c.pipe, n));
    CloseQuiet(f);
  }

  lemma CloseQuiet(c: Channel)
    requires Inv(c.pipe)
    ensures var r := Close(c);
            r.tls == c.tls && r.everActive == c.everActive && Payloads(r.trace) == Payloads(c.trace)
  {
    hide Inv, FailWork, Payloads;
    FailWorkQuiet(c);
    var d := FailWork(c).(closed := true);
    QuietFire(d.(active := false), Inactive);
    QuietFire(SetActive(d, false), Unregistered);
  }

  lemma FailWorkQuiet(c: Channel)
    requires Inv(c.pipe)
    ensures var r := FailWork(c);
            r.tls == c.tls && r.everActive == c.everActive && Payloads(r.trace) == Payloads(c.trace)
  {
    hide Inv, Shut, Payloads, CheckWritability;
    Sizes(c.pipe);
    var d := c.(connect := if c.connect == Unset then Failed else c.connect, pipe := Shut(c.pipe));
    WritabilityAbs(d);
    assert FailWork(c) == CheckWritability(d);
  }

  /** With nothing queued a pass changes nothing. */
  lemma EmptyPass(p: Pipe, offer: nat)
    requires Inv(p) && p.open && p.pendings == []
    ensures Step(p, DoPass(offer)) == p
  {
    Sizes(p);
    assert Data([]) == [] && Drop([], 0) == [];
    assert Flush(p, 0).wire == p.wire && Flush(p, 0).outcomes == p.outcomes;
  }

  lemma WritableAbs(c: Channel, k: Answer, offer: nat)
    requires LifeInv(c) && !c.closed
    ensures var w := Checked(Abs(c), k);
            var (r, go) := OnWritable(c, k, offer);
            && go == Usable(w)
            && Abs(r) == if Usable(w) then Queue(w, DoPass(offer)) else w
  {
    hide Inv, LifeInv, CheckActive, SendPending, CheckWritability, Payloads, Step, Checked;
    InvOf(c);
    CheckAbs(c, k);
    CheckActiveKeeps(c, k);
    var (a, ok) := CheckActive(c, k);
    if ok {
      InvOf(a);
      WritabilityAbs(RemoveWrite(a));
      if a.pipe.pendings == [] {
        EmptyPass(a.pipe, offer);
      } else {
        SendPendingAbs(a, offer);
        var s := SendPending(a, offer);
        WritabilityAbs(s);
        WritabilityAbs(RemoveWrite(s));
      }
    }
  }

  lemma ReadableAbs(c: Channel, k: Answer, data: seq<byte>, eof: bool)
    requires LifeInv(c) && !c.closed
    ensures Abs(OnReadable(c, k, data, eof)) == Received(Checked(Abs(c), k), data, eof)
  {
    hide Inv, LifeInv, CheckActive, Close, Payloads, Step;
    InvOf(c);
    CheckAbs(c, k);
    CheckActiveKeeps(c, k);
    var (a, ok) := if IsActive(c) then (c, true) else CheckActive(c, k);
    if ok {
      InvOf(a);
      FirePayloads(a, Read(data));
      CloseAbs(a);
    }
  }

  /** One thing that happens to a channel happens to the simple machine. */
  lemma DoAbs(c: Channel, a: Action)
    requires LifeInv(c)
    ensures Abs(Do(c, a)) == Next(Abs(c), a)
  {
    hide Inv, LifeInv, OnWritable, OnReadable, Close, Payloads, Checked, Received, Pipeline.Write, Append;
    InvOf(c);
    CloseAbs(c);
    match a {
      case Ready(event, first, offer, second, data, eof) =>
        if !c.closed { ReadyAbs(c, a); }
      case _ =>
    }
  }

  lemma ReadyAbs(c: Channel, a: Action)
    requires LifeInv(c) && !c.closed && a.Ready?
    ensures Abs(HandleEvent(c, a)) == OnReady(Abs(c), a)
  {
    hide Inv, LifeInv, OnWritable, OnReadable, Payloads, Checked, Received, Step;
    InvOf(c);
    WritableAbs(c, a.first, a.offer);
    OnWritableKeeps(c, a.first, a.offer);
    var (w, go) := if a.event.write then OnWritable(c, a.first, a.offer) else (c, true);
    InvOf(w);
    if go && a.event.read && !w.closed { ReadableAbs(w, a.second, a.data, a.eof); }
  }

  /** Refinement: whatever happens to a channel, in any order and with any answers, it has come up, sent,
      queued, decided its writes and handed out data as the simple machine does. */
  lemma {:induction false} RunAbs(c: Channel, actions: seq<Action>)
    requires LifeInv(c)
    ensures Abs(Lifecycle.Run(c, actions)) == SimpleRun(Abs(c), actions)
    decreases |actions|
  {
    hide Inv, LifeInv, Do, Next, Payloads;
    InvOf(c);
    if actions != [] {
      DoKeeps(c, actions[0]);
      DoAbs(c, actions[0]);
      RunAbs(Do(c, actions[0]), actions[1..]);
    }
  }

  ghost function Start(tls: bool): (s: Simple)
    ensures Inv(s.pipe)
  {
    EmptyIsFine();
    Simple(tls, false, EMPTY, [])
  }

  lemma LifeAbs(tls: bool, low: int, high: int, actions: seq<Action>)
    requires 0 <= low < high
    ensures Abs(Life(tls, low, high, actions)) == SimpleRun(Start(tls), actions)
  {
    RegisterKeeps(tls, low, high);
    FirePayloads(Register(tls, low, high).(trace := []), Registered);
    RunAbs(Register(tls, low, high), actions);
  }

  // ---- coming up ----

  /** The first ready event of a channel decides with its first check: it comes up exactly if the
      kernel accepts; a refused connect or handshake closes it with the connect future failed,
      and without Active; otherwise it stays as it was, open and without data. */
  lemma FirstCheckDecides(c: Channel, a: Action)
    requires LifeInv(c) && !c.closed && !c.everActive && a.Ready? && a.event != NONE
    ensures var r := Do(c, a);
            var v := VerdictOf(c.tls, if a.event.write then a.first else a.second);
            && (r.everActive <==> v == Accepted)
            && (v == Refused ==> r.closed && r.connect == Failed && Count(r.trace, KActive) == 0)
            && (v == Undecided ==> Abs(r) == Abs(c))
            && (v == Accepted ==> r.connect == Success && Count(r.trace, KActive) == 1)
  {
    hide Inv, Do, Payloads, Step, PhaseOf, Calm;
    DoAbs(c, a);
    DoKeeps(c, a);
    var r := Do(c, a);
    ShutCloses(c.pipe);
    Counts(r.tls, r.trace);
  }

  lemma ShutCloses(p: Pipe)
    requires Inv(p)
    ensures !Step(p, DoShut).open
  {
  }

  /** Every check of these actions is one the kernel does not accept. */
  predicate NothingAccepted(tls: bool, actions: seq<Action>) {
    forall i :: 0 <= i < |actions| && actions[i].Ready? ==>
      VerdictOf(tls, actions[i].first) != Accepted && VerdictOf(tls, actions[i].second) != Accepted
  }

  lemma {:induction false} StaysDown(s: Simple, actions: seq<Action>)
    requires Inv(s.pipe) && !s.up && NothingAccepted(s.tls, actions)
    ensures !SimpleRun(s, actions).up
    decreases |actions|
  {
    hide Inv, Step;
    if actions != [] {
      assert !Next(s, actions[0]).up && Next(s, actions[0]).tls == s.tls;
      StaysDown(Next(s, actions[0]), actions[1..]);
    }
  }

  /** A channel whose connect or handshake the kernel never accepts never becomes active. */
  lemma NeverActiveUnlessAccepted(tls: bool, low: int, high: int, actions: seq<Action>)
    requires 0 <= low < high && NothingAccepted(tls, actions)
    ensures var r := Life(tls, low, high, actions);
            !r.everActive && r.connect != Success && Count(r.trace, KActive) == 0 && r.pipe.wire == []
  {
    LifeAbs(tls, low, high, actions);
    StaysDown(Start(tls), actions);
    TraceOfAnyRun(tls, low, high, actions);
  }

  // ---- reading ----

  /** What recvall returned. */
  datatype Got = Got(data: seq<byte>, eof: bool)

  /** The channel when the readable half comes to recvall. */
  ghost function AtRead(s: Simple, a: Action): Simple
    requires Inv(s.pipe) && a.Ready?
  {
    var w := if a.event.write then Queue(Checked(s, a.first), DoPass(a.offer)) else s;
    if w.pipe.open then Checked(w, a.second) else w
  }

  /** The event gets as far as recvall: readable, not ended by the writable half, and usable. */
  ghost predicate Reads(s: Simple, a: Action): (b: bool)
    requires Inv(s.pipe)
    ensures b ==> a.Ready?
  {
    && a.Ready? && s.pipe.open && a.event.read
    && (a.event.write ==> Usable(Checked(s, a.first)))
    && Usable(AtRead(s, a))
  }

  /** What is read reaches the handler, and an end of the stream without data closes. */
  lemma ReadReachesHandler(c: Channel, a: Action)
    requires LifeInv(c)
    ensures var r := Do(c, a);
            && Payloads(r.trace) == Payloads(c.trace) + (if Reads(Abs(c), a) then a.data else [])
            && (Reads(Abs(c), a) ==> (r.closed <==> a.data == [] && a.eof))
  {
    hide Inv, Do, Payloads, Step, PhaseOf, Calm;
    DoAbs(c, a);
    DoKeeps(c, a);
    if a.Ready? && !c.closed { ShutCloses(AtRead(Abs(c), a).pipe); }
  }

  /** In particular on an active channel, after a writable half that leaves it open. */
  lemma ActiveChannelReads(c: Channel, a: Action)
    requires LifeInv(c) && c.active && a.Ready? && a.event.read
    requires a.event.write ==> Step(c.pipe, DoPass(a.offer)).open
    ensures var r := Do(c, a);
            Payloads(r.trace) == Payloads(c.trace) + a.data && (r.closed <==> a.data == [] && a.eof)
  {
    hide Inv, Do, Payloads, Step, PhaseOf, Calm;
    ReadReachesHandler(c, a);
  }

  /** All that recvall returned in the course of a run. */
  ghost function AllGot(s: Simple, actions: seq<Action>): seq<Got>
    requires Inv(s.pipe)
    decreases |actions|
  {
    if actions == [] then []
    else
      var got := if Reads(s, actions[0]) then [Got(actions[0].data, actions[0].eof)] else [];
      got + AllGot(Next(s, actions[0]), actions[1..])
  }

  function DataOf(got: seq<Got>): seq<byte> {
    if got == [] then [] else got[0].data + DataOf(got[1..])
  }

  lemma {:induction false} RunDelivers(s: Simple, actions: seq<Action>)
    requires Inv(s.pipe)
    ensures SimpleRun(s, actions).received == s.received + DataOf(AllGot(s, actions))
    decreases |actions|
  {
    hide Inv, Step, Reads, Next;
    if actions == [] {
      assert s.received + [] == s.received;
    } else {
      NextDelivers(s, actions[0]);
      var n, rest := Next(s, actions[0]), AllGot(Next(s, actions[0]), actions[1..]);
      RunDelivers(n, actions[1..]);
      if Reads(s, actions[0]) {
        var g := Got(actions[0].data, actions[0].eof);
        assert ([g] + rest)[1..] == rest;
        assert s.received + g.data + DataOf(rest) == s.received + (g.data + DataOf(rest));
      } else {
        assert [] + rest == rest;
      }
    }
  }

  lemma NextDelivers(s: Simple, a: Action)
    requires Inv(s.pipe)
    ensures Next(s, a).received == if Reads(s, a) then s.received + a.data else s.received
  {
    hide Inv, Step;
    assert s.received + [] == s.received;
  }

  /** Over every run the handler is given exactly what recvall returned, in order. */
  lemma HandlerGetsAll(tls: bool, low: int, high: int, actions: seq<Action>)
    requires 0 <= low < high
    ensures Payloads(Life(tls, low, high, actions).trace) == DataOf(AllGot(Start(tls), actions))
  {
    LifeAbs(tls, low, high, actions);
    RunDelivers(Start(tls), actions);
  }

  // ---- writing ----

  /** The bytes of all writes, in call order. */
  function Written(actions: seq<Action>): seq<byte> {
    if actions == [] then []
    else (if actions[0].Write? then actions[0].data else []) + Written(actions[1..])
  }

  lemma NextAccepts(s: Simple, a: Action)
    requires Inv(s.pipe)
    ensures Data(Next(s, a).pipe.accepted) == Data(s.pipe.accepted) + if a.Write? then a.data else []
  {
    hide Inv, Step, Data;
    match a {
      case Ready(_, first, offer, second, _, _) =>
        if s.pipe.open {
          Unwritten(s.pipe, DoShut);
          var w := Checked(s, first);
          Unwritten(w.pipe, DoPass(offer));
          var sent := if a.event.write then Queue(w, DoPass(offer)) else s;
          Unwritten(sent.pipe, DoShut);
          Unwritten(Checked(sent, second).pipe, DoShut);
        }
      case Write(data, offer) => StepAccepts(s.pipe, DoWrite(s.up, data, offer));
      case CloseGracefully => Unwritten(s.pipe, DoCloseGracefully(s.up));
      case _ => Unwritten(s.pipe, DoShut);
    }
  }

  lemma Unwritten(p: Pipe, a: QueueAction)
    requires Inv(p) && !a.DoWrite?
    ensures Data(Step(p, a).accepted) == Data(p.accepted) && Data(p.accepted) + [] == Data(p.accepted)
  {
    StepAccepts(p, a);
  }

  lemma {:induction false} RunAccepts(s: Simple, actions: seq<Action>)
    requires Inv(s.pipe)
    ensures Data(SimpleRun(s, actions).pipe.accepted) == Data(s.pipe.accepted) + Written(actions)
    decreases |actions|
  {
    hide Inv, Next, Data;
    if actions != [] {
      NextAccepts(s, actions[0]);
      RunAccepts(Next(s, actions[0]), actions[1..]);
    }
  }

  /** Over every run the channel accepts all that is written to it, in call order, and what it has
      sent is a prefix of that. */
  lemma ChannelAcceptsWrites(tls: bool, low: int, high: int, actions: seq<Action>)
    requires 0 <= low < high
    ensures var p := Life(tls, low, high, actions).pipe;
            Data(p.accepted) == Written(actions) && p.wire <= Written(actions)
  {
    hide Life, SimpleRun, Payloads, Written;
    LifeAbs(tls, low, high, actions);
    RunAccepts(Start(tls), actions);
    assert Data([]) + Written(actions) == Written(actions);
    StreamOf(SimpleRun(Start(tls), actions).pipe);
  }

  /** The writable half of a usable channel hands the kernel what is queued before the first close,
      as much as it takes. */
  lemma ActiveChannelSends(c: Channel, a: Action)
    requires LifeInv(c) && !c.closed && a.Ready? && a.event.write && Usable(Checked(Abs(c), a.first))
    ensures var r := Do(c, a);
            && r.pipe.wire == Step(c.pipe, DoPass(a.offer)).wire
            && |r.pipe.wire| == |c.pipe.wire| + Min(a.offer, Sendable(c.pipe.pendings))
  {
    hide Inv, Do, Payloads, Step, Data, Drop, Sendable;
    DoAbs(c, a);
    PassSends(c.pipe, a.offer);
    var sent := Queue(Checked(Abs(c), a.first), DoPass(a.offer));
    ShutSendsNothing(sent.pipe);
  }

  lemma PassSends(p: Pipe, offer: nat)
    requires Inv(p) && p.open
    ensures |Step(p, DoPass(offer)).wire| == |p.wire| + Min(offer, Sendable(p.pendings))
  {
    hide Inv, Data, Drop, Sendable;
    Sizes(p);
    SendableWithinData(p.pendings);
  }

  lemma ShutSendsNothing(p: Pipe)
    requires Inv(p)
    ensures Step(p, DoShut).wire == p.wire
  {
  }

  // ---- interest and back-pressure after the two halves ----

  /** After its writable half a channel that is still open asks for WRITE exactly if something is
      left to send, and its writability has been brought up to date with the marks. */
  lemma WritableHalfSettles(c: Channel, a: Action)
    requires LifeInv(c) && a.Ready? && a.event.write && Usable(Checked(Abs(c), a.first))
    ensures var r := Do(c, a);
            !r.closed ==>
              && (r.flag.write <==> r.pipe.pendings != [])
              && r.flag.read == c.flag.read
              && r.writable == Writability.Next(c.low, c.high, c.writable, r.pipe.pendingBytes)
  {
    hide Inv, LifeInv, OnWritable, OnReadable, Payloads, Checked, Step;
    if !c.closed {
      InvOf(c);
      WritableAbs(c, a.first, a.offer);
      OnWritableKeeps(c, a.first, a.offer);
      OnWritableSettles(c, a.first, a.offer);
      var (w, go) := OnWritable(c, a.first, a.offer);
      InvOf(w);
      if a.event.read && !w.closed { OnReadableLeaves(w, a.second, a.data, a.eof); }
    }
  }

  lemma OnWritableSettles(c: Channel, k: Answer, offer: nat)
    requires LifeInv(c) && !c.closed
    ensures var (r, go) := OnWritable(c, k, offer);
            go && !r.closed ==>
              && r.active
              && (r.flag.write <==> r.pipe.pendings != [])
              && r.flag.read == c.flag.read
              && r.writable == Writability.Next(c.low, c.high, c.writable, r.pipe.pendingBytes)
  {
    hide Inv, LifeInv, CheckActive, SendPending, CheckWritability;
    InvOf(c);
    CheckActiveKeeps(c, k);
    CheckLeaves(c, k);
    var (a, ok) := CheckActive(c, k);
    if ok {
      InvOf(a);
      WritabilityIs(RemoveWrite(a));
      if a.pipe.pendings != [] {
        var s := SendPending(a, offer);
        SendPendingKeeps(a, offer);
        AsksFor(a);
        PassLeaves(a, offer);
        WritabilityIs(s);
        WritabilityIs(RemoveWrite(s));
      }
    }
  }

  lemma WritabilityIs(c: Channel)
    ensures var r := CheckWritability(c);
            && r.writable == Writability.Next(c.low, c.high, c.writable, c.pipe.pendingBytes)
            && r.flag == c.flag && r.pipe == c.pipe && r.active == c.active && r.closed == c.closed
  {
  }

  lemma AsksFor(c: Channel)
    requires LifeInv(c) && c.active && c.pipe.pendings != []
    ensures c.flag.write
  {
  }

  lemma CheckLeaves(c: Channel, k: Answer)
    requires LifeInv(c) && !c.closed
    ensures var (r, ok) := CheckActive(c, k);
            ok ==> r.flag.read == c.flag.read && r.writable == c.writable && r.low == c.low && r.high == c.high
  {
    hide Inv, Close;
  }

  lemma PassLeaves(c: Channel, offer: nat)
    requires LifeInv(c) && c.active
    ensures var r := SendPending(c, offer);
            !r.closed ==> r.flag == c.flag && r.writable == c.writable && r.low == c.low && r.high == c.high
  {
    hide Inv, Data, Drop, Sendable, PhaseOf, Calm;
    SendPendingKeeps(c, offer);
    InvOf(c);
    Sizes(c.pipe);
    var n := Min(offer, Sendable(c.pipe.pendings));
    FlushKeepsInv(c.pipe, n);
    CloseClosed(c.(pipe := Flush(c.pipe, n)));
  }

  lemma CloseClosed(c: Channel)
    requires Inv(c.pipe)
    ensures Close(c).closed
  {
    hide Inv, FailWork;
  }

  lemma OnReadableLeaves(c: Channel, k: Answer, data: seq<byte>, eof: bool)
    requires LifeInv(c) && c.active
    ensures var r := OnReadable(c, k, data, eof);
            !r.closed ==> r.flag == c.flag && r.writable == c.writable && r.pipe == c.pipe
  {
    hide Inv, PhaseOf, Calm;
    CloseClosed(c);
  }

  /** A handshake that is not finished asks for just what it waits for: to read only, or to write
      as well. */
  lemma UndecidedAsks(c: Channel, a: Action)
    requires LifeInv(c) && !c.closed && !c.everActive && a.Ready? && a.event != NONE
    requires VerdictOf(c.tls, if a.event.write then a.first else a.second) == Undecided
    ensures var k := if a.event.write then a.first else a.second;
            Do(c, a).flag == if k.handshake.WantRead? then Interest(true, false) else c.flag.(write := true)
  {
    hide Inv, PhaseOf, Calm, Close;
  }
}
