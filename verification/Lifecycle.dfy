/** One client channel as the event loop drives it: connecting, TLS handshake, active,
    closed; which readiness events it asks for; which handler events it fires.

    A channel is a value here.  Each function follows the code of one method of the
    loop or the channel; `Do` is one thing that can happen to a registered channel
    and `Run` any number of them, in any order and with any answers from the kernel. */
module Lifecycle {
  import opened Pipeline
  import Writability

  /** The events of interest, `_flag`. */
  datatype Interest = Interest(read: bool, write: bool)

  const NONE := Interest(false, false)
  const BOTH := Interest(true, true)

  /** Calls of the channel's handler. */
  datatype Event =
    | Registered | HandshakeComplete | Active | Read(data: seq<byte>)
    | WritabilityChanged | Inactive | Unregistered

  datatype Channel = Channel(
    low: int,
    high: int,
    tls: bool,            // a handshake is required
    pipe: Pipe,
    writable: bool,
    handshakeDone: bool,
    active: bool,
    everActive: bool,
    closed: bool,         // socket closed, close future done
    connect: Outcome,     // the connect future
    flag: Interest,
    autoRead: bool,
    asked: bool,          // history: what the last change of READ interest for auto-read's sake was
    trace: seq<Event>)

  predicate IsActive(c: Channel) { c.active && !c.closed }

  function Fire(c: Channel, e: Event): Channel { c.(trace := c.trace + [e]) }

  /** A new channel after `register`. */
  function Register(tls: bool, low: int, high: int): Channel {
    Fire(Channel(low, high, tls, EMPTY, true, !tls, false, false, false, Unset, BOTH, true, true, []), Registered)
  }

  function CheckWritability(c: Channel): Channel {
    var w := Writability.Next(c.low, c.high, c.writable, c.pipe.pendingBytes);
    if w == c.writable then c else Fire(c.(writable := w), WritabilityChanged)
  }

  function SetActive(c: Channel, active: bool): Channel {
    if c.active == active then c
    else if active then Fire(c.(active := true, everActive := true), Active)
    else Fire(c.(active := false), Inactive)
  }

  /** _fail_channel_work. */
  function FailWork(c: Channel): Channel
    requires Inv(c.pipe)
  {
    CheckWritability(c.(connect := if c.connect == Unset then Failed else c.connect, pipe := Shut(c.pipe)))
  }

  /** _close_channel_internally.  The selector knows the channel exactly while it is open
      and asks for something, and only then is it told of being unregistered. */
  function Close(c: Channel): Channel
    requires Inv(c.pipe)
  {
    var inactive := SetActive(FailWork(c).(closed := true), false);
    if !c.closed && c.flag != NONE then Fire(inactive, Unregistered) else inactive
  }

  /** _activate_channel. */
  function Activate(c: Channel): Channel {
    SetActive(c, true).(connect := if c.connect == Unset then Success else c.connect)
  }

  datatype Handshake = Done | WantRead | WantWrite | Fails

  /** What the kernel says about a connecting socket: SO_ERROR, then the handshake step. */
  datatype Answer = Answer(connectFailed: bool, handshake: Handshake)

  /** _complete_ssl_handshake, with the interest changes of _set_ssl_handshake_interest. */
  function HandshakeStep(c: Channel, h: Handshake): (Channel, bool)
    requires Inv(c.pipe)
  {
    match h
    case WantRead => (c.(flag := Interest(true, false)), false)
    case WantWrite => (c.(flag := c.flag.(write := true)), false)
    case Fails => (Close(c), false)
    case Done =>
      var a := Activate(Fire(c.(handshakeDone := true), HandshakeComplete));
      (if a.pipe.pendings == [] then a else a.(flag := a.flag.(write := true)), true)
  }

  /** _check_channel_active: the channel afterwards and whether it may do application I/O. */
  function CheckActive(c: Channel, k: Answer): (Channel, bool)
    requires Inv(c.pipe)
  {
    if c.everActive then (c, true)
    else if k.connectFailed then (Close(c), false)
    else if c.tls && !c.handshakeDone then HandshakeStep(c, k.handshake)
    else (Activate(c), true)
  }

  /** _send_pending_chunks: `Pass`, with the rest of the closing when a marker is reached. */
  function SendPending(c: Channel, offer: nat): Channel
    requires Inv(c.pipe) && c.pipe.open
  {
    Bounds(c.pipe);
    var n := Min(offer, Sendable(c.pipe.pendings));
    var flushed := Flush(c.pipe, n);
    FlushKeepsInv(c.pipe, n);
    if AtMarker(flushed.pendings) then Close(c.(pipe := flushed)) else c.(pipe := flushed)
  }

  function RemoveWrite(c: Channel): Channel { c.(flag := c.flag.(write := false)) }

  /** The EVENT_WRITE half of the loop body; false is its `continue`. */
  function OnWritable(c: Channel, k: Answer, offer: nat): (Channel, bool)
    requires Inv(c.pipe) && c.pipe.open
  {
    CheckActiveKeepsPipe(c, k);
    var (a, ok) := CheckActive(c, k);
    if !ok then (a, false)
    else if a.pipe.pendings == [] then (CheckWritability(RemoveWrite(a)), true)
    else
      var s := SendPending(a, offer);
      (CheckWritability(if !s.closed && s.pipe.pendings == [] then RemoveWrite(s) else s), true)
  }

  /** The EVENT_READ half; `data` and `eof` are what recvall returns. */
  function OnReadable(c: Channel, k: Answer, data: seq<byte>, eof: bool): Channel
    requires Inv(c.pipe) && c.pipe.open
  {
    CheckActiveKeepsPipe(c, k);
    var (a, ok) := if IsActive(c) then (c, true) else CheckActive(c, k);
    if !ok then a
    else if data != [] then Fire(a, Read(data))
    else if eof then Close(a)
    else a
  }

  /** A successful check leaves the queue alone. */
  lemma CheckActiveKeepsPipe(c: Channel, k: Answer)
    requires Inv(c.pipe)
    ensures CheckActive(c, k).1 ==> CheckActive(c, k).0.pipe == c.pipe
  {
    hide Inv, Close;
  }

  // ---- the language of handler events ----

  datatype Phase = Fresh | Connecting | Shaken | Up | Down | Gone | Dropped | Bad

  /** The automaton a handler may rely on: registered, then for TLS one completed handshake,
      active, any reads and writability changes, inactive, unregistered. */
  function NextPhase(tls: bool, p: Phase, e: Event): Phase {
    match (p, e)
    case (Fresh, Registered) => Connecting
    case (Connecting, HandshakeComplete) => if tls then Shaken else Bad
    case (Connecting, Active) => if tls then Bad else Up
    case (Shaken, Active) => Up
    case (Up, Read(_)) => Up
    case (Up, WritabilityChanged) => Up
    case (Up, Inactive) => Down
    case (Connecting, Unregistered) => Dropped
    case (Down, Unregistered) => Gone
    case _ => Bad
  }

  function PhaseOf(tls: bool, t: seq<Event>): Phase {
    if t == [] then Fresh else NextPhase(tls, PhaseOf(tls, t[..|t| - 1]), t[|t| - 1])
  }

  /** Whether the changes reported so far leave the channel writable: each one flips it. */
  function Calm(t: seq<Event>): bool {
    t == [] || (Calm(t[..|t| - 1]) != t[|t| - 1].WritabilityChanged?)
  }

  // ---- the invariant ----

  /** The flags, the future and the bytes of a channel agree with one another. */
  predicate Core(c: Channel) {
    && 0 <= c.low < c.high
    && c.pipe.open == !c.closed
    && c.active == (c.everActive && !c.closed)
    && c.handshakeDone == (!c.tls || c.everActive)
    && c.connect == (if c.everActive then Success else if c.closed then Failed else Unset)
    && (c.pipe.wire != [] ==> c.everActive)
    && (!c.writable ==> c.active)
  }

  /** While open, the channel asks for the events it needs. */
  predicate Interested(c: Channel) {
    !c.closed ==>
      && (c.everActive && c.pipe.pendings != [] ==> c.flag.write)
      && (!c.tls ==> c.flag.read == c.asked)
      && (!c.tls && !c.everActive ==> c.flag.write)
      && (c.asked ==> c.flag.read)
  }

  predicate Traced(c: Channel) {
    c.writable == Calm(c.trace) &&
    var p := PhaseOf(c.tls, c.trace);
    if !c.closed then p == if c.everActive then Up else Connecting
    else if c.everActive then p == Down || p == Gone
    else p == Connecting || p == Dropped
  }

  ghost predicate LifeInv(c: Channel) {
    Inv(c.pipe) && Core(c) && Interested(c) && Traced(c)
  }

  lemma InvOf(c: Channel)
    requires LifeInv(c)
    ensures Inv(c.pipe) && Core(c)
  {
  }

  lemma Fired(c: Channel, e: Event)
    ensures PhaseOf(c.tls, Fire(c, e).trace) == NextPhase(c.tls, PhaseOf(c.tls, c.trace), e)
    ensures Calm(Fire(c, e).trace) == (Calm(c.trace) != e.WritabilityChanged?)
  {
    assert Fire(c, e).trace[..|c.trace|] == c.trace;
  }

  lemma RegisterKeeps(tls: bool, low: int, high: int)
    requires 0 <= low < high
    ensures LifeInv(Register(tls, low, high))
  {
    EmptyIsFine();
    assert [Registered][..0] == [];
  }

  lemma CheckWritabilityKeeps(c: Channel)
    requires LifeInv(c) && (c.active || c.pipe.pendingBytes == 0)
    ensures LifeInv(CheckWritability(c))
  {
    hide Inv;
    Fired(c, WritabilityChanged);
  }

  lemma CloseKeeps(c: Channel)
    requires LifeInv(c)
    ensures LifeInv(Close(c)) && Close(c).closed && Close(c).pipe == Shut(c.pipe)
  {
    hide Inv, Shut, PhaseOf, Calm;
    Sizes(c.pipe);
    ShutKeepsInv(c.pipe);
    ShutEmpties(c.pipe);
    Fired(c, WritabilityChanged);
    Fired(FailWork(c), Inactive);
    Fired(SetActive(FailWork(c).(closed := true), false), Unregistered);
  }

  lemma ShutEmpties(p: Pipe)
    requires Inv(p)
    ensures var r := Shut(p); !r.open && r.pendingBytes == 0 && r.pendings == [] && r.wire == p.wire
  {
  }

  lemma ActivateKeeps(c: Channel)
    requires Inv(c.pipe) && Core(c.(handshakeDone := !c.tls)) && Interested(c) && !c.closed && !c.everActive
    requires c.handshakeDone
    requires PhaseOf(c.tls, c.trace) == (if c.tls then Shaken else Connecting) && c.writable == Calm(c.trace)
    requires c.pipe.pendings != [] ==> c.flag.write
    ensures LifeInv(Activate(c)) && Activate(c).active && Activate(c).pipe == c.pipe
  {
    hide Inv, PhaseOf, Calm;
    Fired(c, Active);
  }

  lemma HandshakeStepKeeps(c: Channel, h: Handshake)
    requires LifeInv(c) && !c.closed && !c.everActive && c.tls
    ensures var (a, ok) := HandshakeStep(c, h); LifeInv(a) && (ok ==> a.active && a.pipe == c.pipe)
  {
    hide Inv, PhaseOf, Calm;
    match h {
      case WantRead =>
      case WantWrite =>
      case Fails => CloseKeeps(c);
      case Done =>
        var d := Fire(c.(handshakeDone := true), HandshakeComplete);
        Fired(c.(handshakeDone := true), HandshakeComplete);
        Fired(d, Active);
    }
  }

  lemma CheckActiveKeeps(c: Channel, k: Answer)
    requires LifeInv(c) && !c.closed
    ensures var (a, ok) := CheckActive(c, k); LifeInv(a) && (ok ==> a.active && a.pipe == c.pipe)
  {
    hide Inv, PhaseOf, Calm;
    if !c.everActive {
      if k.connectFailed {
        CloseKeeps(c);
      } else if c.tls {
        HandshakeStepKeeps(c, k.handshake);
      } else {
        ActivateKeeps(c);
      }
    }
  }

  lemma SendPendingKeeps(c: Channel, offer: nat)
    requires LifeInv(c) && c.active
    ensures var s := SendPending(c, offer);
            && LifeInv(s) && s.pipe == Step(c.pipe, DoPass(offer))
            && (if s.closed then s.pipe.pendingBytes == 0 else s.active)
  {
    hide Inv, PhaseOf, Calm, Data, Drop, Sendable;
    Sizes(c.pipe);
    var n := Min(offer, Sendable(c.pipe.pendings));
    FlushKeepsInv(c.pipe, n);
    DropLength(c.pipe.pendings, n);
    var f := c.(pipe := Flush(c.pipe, n));
    if AtMarker(f.pipe.pendings) {
      CloseKeeps(f);
      ShutEmpties(f.pipe);
    }
  }

  lemma OnWritableKeeps(c: Channel, k: Answer, offer: nat)
    requires LifeInv(c) && !c.closed
    ensures var (w, go) := OnWritable(c, k, offer); LifeInv(w) && (!go ==> !w.active)
  {
    hide Inv, PhaseOf, Calm, SendPending, Step;
    CheckActiveKeeps(c, k);
    var (a, ok) := CheckActive(c, k);
    if ok {
      if a.pipe.pendings == [] {
        CheckWritabilityKeeps(RemoveWrite(a));
      } else {
        SendPendingKeeps(a, offer);
        var s := SendPending(a, offer);
        CheckWritabilityKeeps(if !s.closed && s.pipe.pendings == [] then RemoveWrite(s) else s);
      }
    }
  }

  lemma OnReadableKeeps(c: Channel, k: Answer, data: seq<byte>, eof: bool)
    requires LifeInv(c) && !c.closed
    ensures LifeInv(OnReadable(c, k, data, eof))
  {
    hide Inv, PhaseOf, Calm, CheckActive, Close;
    CheckActiveKeeps(c, k);
    var (a, ok) := if IsActive(c) then (c, true) else CheckActive(c, k);
    if ok {
      Fired(a, Read(data));
      CloseKeeps(a);
    }
  }

  // ---- steps and runs ----

  datatype Action =
    | Ready(event: Interest, first: Answer, offer: nat, second: Answer, data: seq<byte>, eof: bool)
    | Write(data: seq<byte>, offer: nat)
    | CloseGracefully
    | CloseForcibly
    | SetAutoRead(on: bool)      // called in the loop and not interrupted
    | AssignAutoRead(on: bool)   // its two halves: the assignment, on the caller's thread,
    | ChangeRead(on: bool)       // and the change of interest, in the loop
    | ConnectTimeout

  /** The loop body for one ready channel. */
  function HandleEvent(c: Channel, a: Action): Channel
    requires LifeInv(c) && !c.closed && a.Ready?
  {
    OnWritableKeeps(c, a.first, a.offer);
    var (w, go) := if a.event.write then OnWritable(c, a.first, a.offer) else (c, true);
    if go && a.event.read && !w.closed then OnReadable(w, a.second, a.data, a.eof) else w
  }

  /** `write` and `close_gracefully`: queueing anything asks for writability. */
  function AppWrite(c: Channel, data: seq<byte>, offer: nat): Channel
    requires Inv(c.pipe)
  {
    Bounds(c.pipe);
    var p := Pipeline.Write(c.pipe, IsActive(c), data, offer);
    c.(pipe := p, flag := c.flag.(write := c.flag.write || |p.pendings| > |c.pipe.pendings|))
  }

  function AppCloseGracefully(c: Channel): Channel {
    if IsActive(c) then c.(pipe := Pipeline.CloseGracefully(c.pipe, true), flag := c.flag.(write := true)) else c
  }

  function AppSetAutoRead(c: Channel, on: bool): Channel {
    if c.autoRead == on then c else AppChangeRead(c.(autoRead := on), on)
  }

  /** add_flag or remove_flag for READ, as set_auto_read calls it. */
  function AppChangeRead(c: Channel, on: bool): Channel {
    c.(asked := on, flag := c.flag.(read := on))
  }

  /** One thing that can happen.  A closed channel is no longer in `_channels`, so the
      loop does nothing with it. */
  function Do(c: Channel, a: Action): Channel
    requires LifeInv(c)
  {
    match a
    case Ready(_, _, _, _, _, _) => if c.closed then c else HandleEvent(c, a)
    case Write(data, offer) => AppWrite(c, data, offer)
    case CloseGracefully => AppCloseGracefully(c)
    case CloseForcibly => Close(c)
    case SetAutoRead(on) => AppSetAutoRead(c, on)
    case AssignAutoRead(on) => c.(autoRead := on)
    case ChangeRead(on) => AppChangeRead(c, on)
    case ConnectTimeout => if c.closed || c.everActive then c else Close(c)
  }

  predicate ForAutoRead(a: Action) { a.SetAutoRead? || a.AssignAutoRead? || a.ChangeRead? }

  lemma AppKeeps(c: Channel, a: Action)
    requires LifeInv(c) && (a.Write? || a.CloseGracefully? || ForAutoRead(a))
    ensures LifeInv(Do(c, a))
  {
    hide Inv, PhaseOf, Calm;
    match a {
      case Write(data, offer) => WriteKeepsInv(c.pipe, IsActive(c), data, offer);
      case CloseGracefully => CloseGracefullyKeepsInv(c.pipe, true);
      case _ =>
    }
  }

  lemma DoKeeps(c: Channel, a: Action)
    requires LifeInv(c)
    ensures LifeInv(Do(c, a))
  {
    hide Inv, PhaseOf, Calm, Interested, Traced, OnWritable, OnReadable, Close;
    match a {
      case Ready(event, first, offer, second, data, eof) =>
        if !c.closed {
          OnWritableKeeps(c, first, offer);
          var (w, go) := if event.write then OnWritable(c, first, offer) else (c, true);
          if go && event.read && !w.closed { OnReadableKeeps(w, second, data, eof); }
        }
      case CloseForcibly => CloseKeeps(c);
      case ConnectTimeout => CloseKeeps(c);
      case _ => AppKeeps(c, a);
    }
  }

  ghost function Run(c: Channel, actions: seq<Action>): (r: Channel)
    requires LifeInv(c)
    ensures LifeInv(r)
    decreases |actions|
  {
    if actions == [] then c
    else
      DoKeeps(c, actions[0]);
      Run(Do(c, actions[0]), actions[1..])
  }

  /** A newly registered channel after some actions. */
  ghost function Life(tls: bool, low: int, high: int, actions: seq<Action>): (c: Channel)
    requires 0 <= low < high
    ensures LifeInv(c)
  {
    RegisterKeeps(tls, low, high);
    Run(Register(tls, low, high), actions)
  }

  lemma {:induction false} RunMore(c: Channel, actions: seq<Action>, a: Action)
    requires LifeInv(c)
    ensures Run(c, actions + [a]) == Do(Run(c, actions), a)
    decreases |actions|
  {
    hide Inv, Core, Interested, Traced, Do;
    if actions == [] {
      DoKeeps(c, a);
      assert [a][1..] == [];
      assert [] + [a] == [a];
    } else {
      DoKeeps(c, actions[0]);
      RunMore(Do(c, actions[0]), actions[1..], a);
      assert (actions + [a])[1..] == actions[1..] + [a];
    }
  }

  // ---- what a run guarantees ----

  datatype Kind = KRegistered | KHandshake | KActive | KInactive | KUnregistered | KOther

  function KindOf(e: Event): Kind {
    match e
    case Registered => KRegistered
    case HandshakeComplete => KHandshake
    case Active => KActive
    case Inactive => KInactive
    case Unregistered => KUnregistered
    case _ => KOther
  }

  function Count(t: seq<Event>, k: Kind): nat {
    if t == [] then 0 else Count(t[..|t| - 1], k) + if KindOf(t[|t| - 1]) == k then 1 else 0
  }

  /** How often each event occurs in a trace the automaton accepts. */
  lemma {:induction false} Counts(tls: bool, t: seq<Event>)
    requires PhaseOf(tls, t) != Bad
    ensures var p := PhaseOf(tls, t);
            && Count(t, KRegistered) == (if p == Fresh then 0 else 1)
            && Count(t, KHandshake) == (if p == Shaken || (tls && p in {Up, Down, Gone}) then 1 else 0)
            && Count(t, KActive) == (if p in {Up, Down, Gone} then 1 else 0)
            && Count(t, KInactive) == (if p in {Down, Gone} then 1 else 0)
            && Count(t, KUnregistered) == (if p in {Gone, Dropped} then 1 else 0)
  {
    if t != [] { Counts(tls, t[..|t| - 1]); }
  }

  lemma {:induction false} PrefixNotBad(tls: bool, t: seq<Event>, i: nat)
    requires PhaseOf(tls, t) != Bad && i <= |t|
    ensures PhaseOf(tls, t[..i]) != Bad
  {
    if i < |t| {
      assert t[..|t| - 1][..i] == t[..i];
      PrefixNotBad(tls, t[..|t| - 1], i);
    } else {
      assert t[..i] == t;
    }
  }

  /** Data and writability changes reach the handler only between active and inactive,
      with TLS only after the handshake. */
  lemma ReadsOnlyWhileActive(tls: bool, t: seq<Event>, i: nat)
    requires PhaseOf(tls, t) != Bad && i < |t| && (t[i].Read? || t[i].WritabilityChanged?)
    ensures Count(t[..i], KActive) == 1 && Count(t[..i], KInactive) == 0
    ensures Count(t[..i], KHandshake) == if tls then 1 else 0
  {
    PrefixNotBad(tls, t, i);
    PrefixNotBad(tls, t, i + 1);
    assert t[..i + 1][..i] == t[..i];
    Counts(tls, t[..i]);
  }

  /** One step: identity and history stay, closing is for good, a decided connect future keeps
      its outcome, and a closed channel fires nothing and sends nothing. */
  ghost predicate Follows(c: Channel, r: Channel) {
    && r.tls == c.tls && r.low == c.low && r.high == c.high
    && c.trace <= r.trace
    && (c.everActive ==> r.everActive)
    && (c.connect != Unset ==> r.connect == c.connect)
    && (c.closed ==> r.closed && r.trace == c.trace && r.pipe.wire == c.pipe.wire)
  }

  /** The same of what the loop or the application does otherwise than for auto-read. */
  ghost predicate Undisturbed(c: Channel, r: Channel) {
    Follows(c, r) && r.autoRead == c.autoRead && r.asked == c.asked
  }

  lemma {:induction false} RunFollows(c: Channel, actions: seq<Action>)
    requires LifeInv(c)
    ensures Follows(c, Run(c, actions))
    decreases |actions|
  {
    hide Inv, Core, Interested, Traced, Do;
    if actions != [] {
      DoKeeps(c, actions[0]);
      DoFollows(c, actions[0]);
      RunFollows(Do(c, actions[0]), actions[1..]);
    }
  }

  lemma DoFollows(c: Channel, a: Action)
    requires LifeInv(c)
    ensures Follows(c, Do(c, a)) && (!ForAutoRead(a) ==> Undisturbed(c, Do(c, a)))
  {
    hide Inv, PhaseOf, Calm, Interested, Close, HandleEvent, Pipeline.Write;
    Sizes(c.pipe);
    CloseFollows(c);
    match a {
      case Ready(event, first, offer, second, data, eof) =>
        if !c.closed { HandleEventFollows(c, a); }
      case Write(data, offer) =>
        LateWrite(c.pipe, data, offer);
      case _ =>
    }
  }

  /** A write that does not find the channel active puts nothing on the wire. */
  lemma LateWrite(p: Pipe, data: seq<byte>, offer: nat)
    requires |p.pendings| <= |p.accepted| == |p.outcomes|
    ensures Pipeline.Write(p, false, data, offer).wire == p.wire
  {
  }

  lemma CloseFollows(c: Channel)
    requires Inv(c.pipe) && Core(c)
    ensures Undisturbed(c, Close(c))
  {
    hide Inv, Shut;
    Sizes(c.pipe);
    ShutEmpties(c.pipe);
  }

  lemma CheckActiveFollows(c: Channel, k: Answer)
    requires LifeInv(c) && !c.closed
    ensures Undisturbed(c, CheckActive(c, k).0)
  {
    hide Inv, PhaseOf, Calm, Interested, Close;
    CloseFollows(c);
  }

  lemma SendPendingFollows(c: Channel, offer: nat)
    requires LifeInv(c) && c.active
    ensures Undisturbed(c, SendPending(c, offer))
  {
    hide Inv, PhaseOf, Calm, Interested, Close, Data, Drop, Sendable;
    Sizes(c.pipe);
    var n := Min(offer, Sendable(c.pipe.pendings));
    FlushKeepsInv(c.pipe, n);
    var f := c.(pipe := Flush(c.pipe, n));
    CloseAnyFollows(f);
  }

  lemma FailWorkFollows(c: Channel)
    requires Inv(c.pipe)
    ensures var r := FailWork(c);
            && c.trace <= r.trace && r.tls == c.tls && r.low == c.low && r.high == c.high
            && r.everActive == c.everActive && (c.connect != Unset ==> r.connect == c.connect)
            && r.autoRead == c.autoRead && r.asked == c.asked
  {
    hide Inv, Shut, CheckWritability;
    Sizes(c.pipe);
    var d := c.(connect := if c.connect == Unset then Failed else c.connect, pipe := Shut(c.pipe));
    WritabilityFollows(d);
    assert FailWork(c) == CheckWritability(d);
  }

  lemma CloseAnyFollows(c: Channel)
    requires Inv(c.pipe) && !c.closed
    ensures Undisturbed(c, Close(c))
  {
    hide Inv, FailWork, SetActive;
    FailWorkFollows(c);
    BecomesInactive(FailWork(c).(closed := true));
  }

  lemma BecomesInactive(c: Channel)
    ensures var r := SetActive(c, false);
            && c.trace <= r.trace && r.tls == c.tls && r.low == c.low && r.high == c.high
            && r.everActive == c.everActive && r.connect == c.connect
            && r.autoRead == c.autoRead && r.asked == c.asked
  {
  }

  lemma OnWritableFollows(c: Channel, k: Answer, offer: nat)
    requires LifeInv(c) && !c.closed
    ensures Undisturbed(c, OnWritable(c, k, offer).0)
  {
    hide Inv, Interested, Traced, CheckActive, SendPending, CheckWritability;
    CheckActiveKeeps(c, k);
    CheckActiveFollows(c, k);
    var (a, ok) := CheckActive(c, k);
    if ok {
      WritabilityFollows(RemoveWrite(a));
      if a.pipe.pendings != [] {
        SendPendingFollows(a, offer);
        var s := SendPending(a, offer);
        WritabilityFollows(s);
        WritabilityFollows(RemoveWrite(s));
      }
    }
  }

  /** Checking writability leaves everything but the flag and the trace alone. */
  lemma WritabilityFollows(c: Channel)
    ensures var r := CheckWritability(c);
            && c.trace <= r.trace && r.tls == c.tls && r.low == c.low && r.high == c.high && r.pipe == c.pipe
            && r.active == c.active && r.everActive == c.everActive && r.closed == c.closed
            && r.connect == c.connect && r.flag == c.flag && r.autoRead == c.autoRead && r.asked == c.asked
  {
    if CheckWritability(c) != c {
      var d := c.(writable := !c.writable);
      assert CheckWritability(c) == Fire(d, WritabilityChanged) by { hide Fire; }
    }
  }

  lemma OnReadableFollows(c: Channel, k: Answer, data: seq<byte>, eof: bool)
    requires LifeInv(c) && !c.closed
    ensures Undisturbed(c, OnReadable(c, k, data, eof))
  {
    hide Inv, PhaseOf, Calm, Interested, CheckActive, Close;
    CheckActiveKeeps(c, k);
    CheckActiveFollows(c, k);
    var (a, ok) := if IsActive(c) then (c, true) else CheckActive(c, k);
    if ok { CloseFollows(a); }
  }

  lemma HandleEventFollows(c: Channel, a: Action)
    requires LifeInv(c) && !c.closed && a.Ready?
    ensures Undisturbed(c, HandleEvent(c, a))
  {
    hide Inv, PhaseOf, Calm, Interested, OnWritable, OnReadable;
    OnWritableKeeps(c, a.first, a.offer);
    OnWritableFollows(c, a.first, a.offer);
    var (w, go) := if a.event.write then OnWritable(c, a.first, a.offer) else (c, true);
    if go && a.event.read && !w.closed { OnReadableFollows(w, a.second, a.data, a.eof); }
  }

  /** The handler's contract over every run: every change of writability is reported; registered
      once; at most one handshake_complete, and only with TLS; active at most once, and exactly
      when the connect future succeeded; at most one inactive, and only after active; and no byte
      leaves before all that. */
  lemma TraceOfAnyRun(tls: bool, low: int, high: int, actions: seq<Action>)
    requires 0 <= low < high
    ensures var r := Life(tls, low, high, actions);
            && PhaseOf(tls, r.trace) != Bad
            && r.writable == Calm(r.trace)
            && Count(r.trace, KRegistered) == 1
            && Count(r.trace, KHandshake) == (if tls && r.everActive then 1 else 0)
            && Count(r.trace, KActive) == (if r.connect == Success then 1 else 0)
            && Count(r.trace, KInactive) == (if r.everActive && r.closed then 1 else 0)
            && (r.pipe.wire != [] ==> Count(r.trace, KActive) == 1)
            && (r.closed ==> r.connect != Unset)
  {
    RegisterKeeps(tls, low, high);
    var r := Life(tls, low, high, actions);
    RunFollows(Register(tls, low, high), actions);
    Counts(tls, r.trace);
  }

  // ---- interest ----

  /** The value assigned last to auto-read, and the change of READ interest made last for its sake. */
  datatype Wishes = Wishes(autoRead: bool, asked: bool)

  function Wish(w: Wishes, a: Action): Wishes {
    match a
    case SetAutoRead(on) => Wishes(on, if w.autoRead == on then w.asked else on)
    case AssignAutoRead(on) => w.(autoRead := on)
    case ChangeRead(on) => w.(asked := on)
    case _ => w
  }

  function WishesAfter(w: Wishes, actions: seq<Action>): Wishes
    decreases |actions|
  {
    if actions == [] then w else WishesAfter(Wish(w, actions[0]), actions[1..])
  }

  lemma DoWishes(c: Channel, a: Action)
    requires LifeInv(c)
    ensures var r := Do(c, a); Wishes(r.autoRead, r.asked) == Wish(Wishes(c.autoRead, c.asked), a)
  {
    hide LifeInv, Follows, HandleEvent, AppWrite, AppCloseGracefully, Close;
    DoFollows(c, a);
  }

  lemma {:induction false} RunWishes(c: Channel, actions: seq<Action>)
    requires LifeInv(c)
    ensures var r := Run(c, actions);
            Wishes(r.autoRead, r.asked) == WishesAfter(Wishes(c.autoRead, c.asked), actions)
    decreases |actions|
  {
    hide LifeInv, Do, Wish;
    if actions != [] {
      DoKeeps(c, actions[0]);
      DoWishes(c, actions[0]);
      RunWishes(Do(c, actions[0]), actions[1..]);
    }
  }

  /** No stranded writer: over every run, an open channel that has been active and has
      something queued is waiting for writability, whatever the handshake did to its flag.
      Plain TCP asks for reading as the last change for auto-read's sake said, so in agreement
      with auto-read if and only if that is the value assigned last. */
  lemma NoStrandedWriter(tls: bool, low: int, high: int, actions: seq<Action>)
    requires 0 <= low < high
    ensures var r, w := Life(tls, low, high, actions), WishesAfter(Wishes(true, true), actions);
            && (!r.closed && r.everActive && r.pipe.pendings != [] ==> r.flag.write)
            && (!r.closed && !tls ==> r.autoRead == w.autoRead && r.flag.read == w.asked)
            && (!r.closed && !tls && !r.everActive ==> r.flag.write)
  {
    RegisterKeeps(tls, low, high);
    RunFollows(Register(tls, low, high), actions);
    RunWishes(Register(tls, low, high), actions);
  }

  /** With TLS the agreement of READ interest and auto-read is broken by the handshake exactly
      when it waits for data while auto-read is off: a paused channel reads again. */
  lemma HandshakeOverridesAutoRead(c: Channel, h: Handshake)
    requires LifeInv(c) && !c.closed && !c.everActive && c.tls
    requires c.flag.read == c.autoRead
    ensures var r := HandshakeStep(c, h).0;
            !r.closed ==> (r.flag.read == r.autoRead <==> !(h == WantRead && !c.autoRead))
  {
  }

  /** Turning auto-read off leaves a connecting channel deaf, asking for no event at all,
      exactly when the channel waits for handshake data only; plain TCP is never affected. */
  lemma AutoReadOffDeafens(c: Channel)
    requires LifeInv(c) && !c.closed && !c.everActive
    ensures Do(c, ChangeRead(false)).flag == NONE <==> !c.flag.write
    ensures c.autoRead ==> (Do(c, SetAutoRead(false)).flag == NONE <==> !c.flag.write)
    ensures !c.flag.write ==> c.tls
  {
  }

  /** And it happens: a TLS channel whose handshake wanted to read. */
  lemma DeafHandshakeHappens(low: int, high: int)
    requires 0 <= low < high
    ensures var wants := Ready(Interest(false, true), Answer(false, WantRead), 0, Answer(false, Fails), [], false);
            var r := Life(true, low, high, [wants, SetAutoRead(false)]);
            !r.closed && !r.everActive && r.flag == NONE
  {
    hide Inv, Interested, Traced, SendPending;
    RegisterKeeps(true, low, high);
    var c := Register(true, low, high);
    var wants := Ready(Interest(false, true), Answer(false, WantRead), 0, Answer(false, Fails), [], false);
    RunMore(c, [], wants);
    RunMore(c, [wants], SetAutoRead(false));
    assert [] + [wants] == [wants] && [wants] + [SetAutoRead(false)] == [wants, SetAutoRead(false)];
    assert Do(c, wants) == c.(flag := Interest(true, false));
  }

  // ---- closing ----

  /** Every promise is kept: closed, the connect future decided, succeeded exactly if the channel had
      been activated, nothing queued and no accepted write undecided. */
  ghost predicate Discharged(c: Channel) {
    && c.closed && !c.active && c.pipe.pendings == []
    && c.connect == (if c.everActive then Success else Failed)
    && |c.pipe.outcomes| == |c.pipe.accepted|
    && (forall i :: 0 <= i < |c.pipe.accepted| && !c.pipe.accepted[i].close ==> c.pipe.outcomes[i] != Unset)
  }

  /** A close discharges the channel, and writes that were sent stay succeeded. */
  lemma CloseDischarges(c: Channel)
    requires LifeInv(c)
    ensures var r := Close(c);
            && Discharged(r) && r.everActive == c.everActive && r.pipe.accepted == c.pipe.accepted
            && |r.pipe.outcomes| == |c.pipe.outcomes|
            && (forall i :: 0 <= i < |r.pipe.outcomes| ==>
                  (r.pipe.outcomes[i] == Success <==> c.pipe.outcomes[i] == Success))
  {
    CloseKeeps(c);
    ShutDischarges(c.pipe);
  }

  /** The handler hears of the channel being unregistered exactly when the channel was still asking
      for some event. */
  lemma UnregisteredIffWatched(c: Channel)
    requires LifeInv(c) && !c.closed
    ensures Count(Close(c).trace, KUnregistered) == if c.flag != NONE then 1 else 0
  {
    hide Inv, Close, PhaseOf, Calm, Count;
    Ended(c);
    Counts(c.tls, Close(c).trace);
  }

  lemma Ended(c: Channel)
    requires LifeInv(c) && !c.closed
    ensures PhaseOf(c.tls, Close(c).trace)
            == if c.everActive then (if c.flag != NONE then Gone else Down)
               else if c.flag != NONE then Dropped else Connecting
  {
    hide Inv, Shut, PhaseOf, Calm;
    Sizes(c.pipe);
    ShutEmpties(c.pipe);
    Fired(c, WritabilityChanged);
    Fired(FailWork(c), Inactive);
    Fired(SetActive(FailWork(c).(closed := true), false), Unregistered);
  }

  /** Closing a closed channel fires nothing, and changes anything at all exactly when a
      write was queued after the first close. */
  lemma CloseTwice(c: Channel)
    requires LifeInv(c) && c.closed
    ensures Close(c).trace == c.trace
    ensures Close(c) == c <==> c.pipe.pendings == []
  {
    SecondShut(c.pipe);
    hide Inv, Shut, PhaseOf, Calm;
    Sizes(c.pipe);
    ShutEmpties(c.pipe);
  }
}
