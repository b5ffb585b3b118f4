/** Scripts for the whole loop, and the history each of them gives to every channel. */
module LoopScripts {
  import opened Pipeline
  import opened Lifecycle
  import opened ConnectTimeouts
  import opened Bookkeeping

  datatype LoopStep =
    | Connect(fd: Fd, tls: bool, now: int, timeout: int)
    | On(fd: Fd, a: Action)
    | Timeouts(now: int)

  /** What one channel went through since it was registered. */
  datatype History = History(tls: bool, actions: seq<Action>)

  ghost function Connected(steps: seq<LoopStep>): set<Fd> {
    set i | 0 <= i < |steps| && steps[i].Connect? :: steps[i].fd
  }

  /** Descriptors are used for one channel only, and actions are for channels already registered. */
  ghost predicate Script(steps: seq<LoopStep>) {
    forall i :: 0 <= i < |steps| ==>
      match steps[i]
      case Connect(fd, _, _, _) => fd !in Connected(steps[..i])
      case On(fd, a) => fd in Connected(steps[..i]) && !a.ConnectTimeout?
      case Timeouts(_) => true
  }

  /** The actions of a script that are addressed to fd, in order. */
  ghost function Addressed(steps: seq<LoopStep>, fd: Fd): seq<Action> {
    if steps == [] then []
    else
      var last := steps[|steps| - 1];
      Addressed(steps[..|steps| - 1], fd) + if last.On? && last.fd == fd then [last.a] else []
  }

  /** A history without the connect timeouts, the only actions the loop takes by itself. */
  ghost function Own(actions: seq<Action>): seq<Action> {
    if actions == [] then []
    else
      var last := actions[|actions| - 1];
      Own(actions[..|actions| - 1]) + if last.ConnectTimeout? then [] else [last]
  }

  ghost function More(x: History, a: Action): (r: History)
    ensures Own(r.actions) == Own(x.actions) + if a.ConnectTimeout? then [] else [a]
  {
    var r := x.actions + [a];
    assert r[..|r| - 1] == x.actions;
    x.(actions := r)
  }

  ghost function TimedOut(h: map<Fd, History>, fds: set<Fd>): map<Fd, History> {
    map fd | fd in h :: if fd in fds then More(h[fd], ConnectTimeout) else h[fd]
  }

  ghost function Replay(low: int, high: int, x: History): (r: Channel)
    requires 0 <= low < high
    ensures LifeInv(r)
  {
    Life(x.tls, low, high, x.actions)
  }

  /** Every channel is where its own history takes it. */
  ghost predicate Recorded(low: int, high: int, channels: map<Fd, Channel>, gone: map<Fd, Channel>,
                           h: map<Fd, History>)
  {
    && 0 <= low < high
    && h.Keys == channels.Keys + gone.Keys
    && (forall fd :: fd in channels ==> channels[fd] == Replay(low, high, h[fd]))
    && (forall fd :: fd in gone ==> gone[fd] == Replay(low, high, h[fd]))
  }

  lemma ReplayMore(low: int, high: int, x: History, a: Action)
    requires 0 <= low < high
    ensures Replay(low, high, More(x, a)) == Do(Replay(low, high, x), a)
  {
    hide LifeInv, Do;
    RegisterKeeps(x.tls, low, high);
    RunMore(Register(x.tls, low, high), x.actions, a);
  }

  lemma NothingRecorded(low: int, high: int, channels: map<Fd, Channel>, gone: map<Fd, Channel>)
    requires 0 <= low < high && channels == map[] && gone == map[]
    ensures Recorded(low, high, channels, gone, map[])
  {
  }

  lemma Known(low: int, high: int, channels: map<Fd, Channel>, gone: map<Fd, Channel>, h: map<Fd, History>, fd: Fd)
    requires Recorded(low, high, channels, gone, h)
    ensures fd in h <==> fd in channels || fd in gone
  {
  }

  lemma RecordConnect(low: int, high: int, channels: map<Fd, Channel>, gone: map<Fd, Channel>,
                      h: map<Fd, History>, fd: Fd, tls: bool)
    requires Recorded(low, high, channels, gone, h) && fd !in h
    ensures Recorded(low, high, channels[fd := Register(tls, low, high)], gone, h[fd := History(tls, [])])
  {
    hide LifeInv, Do;
    assert Replay(low, high, History(tls, [])) == Register(tls, low, high);
  }

  lemma RecordOne(low: int, high: int, channels: map<Fd, Channel>, gone: map<Fd, Channel>,
                  h: map<Fd, History>, fd: Fd, a: Action)
    requires Recorded(low, high, channels, gone, h) && channels.Keys !! gone.Keys && fd in h
    requires Dead(gone)
    ensures fd in channels || fd in gone
    ensures var c := if fd in channels then channels[fd] else gone[fd];
            && LifeInv(c)
            && Recorded(low, high, Moved(channels, fd, Do(c, a)), MovedGone(gone, fd, Do(c, a)),
                        h[fd := More(h[fd], a)])
  {
    hide LifeInv, Do, Replay;
    var c := if fd in channels then channels[fd] else gone[fd];
    ReplayMore(low, high, h[fd], a);
    DoFollows(c, a);
  }

  lemma RecordTimeouts(low: int, high: int, channels: map<Fd, Channel>, due: map<Fd, int>, gone: map<Fd, Channel>,
                       h: map<Fd, History>, now: int)
    requires Recorded(low, high, channels, gone, h) && Deadlines(channels, due) && Alive(channels)
    requires channels.Keys !! gone.Keys
    ensures TimedOut(h, Overdue(due, now)).Keys == h.Keys
    ensures forall ch, d, g :: AllClosed(channels, due, gone, ch, d, g, Overdue(due, now)) ==>
              Recorded(low, high, ch, g, TimedOut(h, Overdue(due, now)))
  {
    hide LifeInv, Replay, Close;
    forall fd | fd in Overdue(due, now)
      ensures Inv(channels[fd].pipe) && Replay(low, high, More(h[fd], ConnectTimeout)) == Close(channels[fd])
    {
      InvOf(channels[fd]);
      ReplayMore(low, high, h[fd], ConnectTimeout);
    }
  }

  /** The histories are those of the connected channels, and hold what was addressed to them. */
  ghost predicate Faithful(h: map<Fd, History>, steps: seq<LoopStep>) {
    h.Keys == Connected(steps) && forall fd :: fd in h ==> Own(h[fd].actions) == Addressed(steps, fd)
  }

  lemma NothingAddressed()
    ensures Own([]) == [] && forall steps: seq<LoopStep> :: steps == [] ==> Faithful(map[], steps)
  {
  }

  lemma ConnectedMore(steps: seq<LoopStep>, i: nat)
    requires i < |steps|
    ensures Connected(steps[..i + 1]) == Connected(steps[..i]) + if steps[i].Connect? then {steps[i].fd} else {}
  {
    assert forall k :: 0 <= k < i ==> steps[..i + 1][k] == steps[k] == steps[..i][k];
    assert steps[..i + 1][i] == steps[i];
  }

  lemma AddressedMore(steps: seq<LoopStep>, i: nat, fd: Fd)
    requires i < |steps|
    ensures Addressed(steps[..i + 1], fd) ==
              Addressed(steps[..i], fd) + if steps[i].On? && steps[i].fd == fd then [steps[i].a] else []
  {
    assert steps[..i + 1][..i] == steps[..i];
  }

  lemma {:induction false} NotYetAddressed(steps: seq<LoopStep>, i: nat, fd: Fd)
    requires Script(steps) && i <= |steps| && fd !in Connected(steps[..i])
    ensures Addressed(steps[..i], fd) == []
  {
    if i > 0 {
      ConnectedMore(steps, i - 1);
      AddressedMore(steps, i - 1, fd);
      NotYetAddressed(steps, i - 1, fd);
    }
  }

  lemma FaithfulStep(h: map<Fd, History>, steps: seq<LoopStep>, i: nat)
    requires Script(steps) && i < |steps| && Faithful(h, steps[..i])
    ensures match steps[i]
            case Connect(fd, tls, _, _) => fd !in h && Faithful(h[fd := History(tls, [])], steps[..i + 1])
            case On(fd, a) => fd in h && !a.ConnectTimeout? && Faithful(h[fd := More(h[fd], a)], steps[..i + 1])
            case Timeouts(_) => forall fds :: Faithful(TimedOut(h, fds), steps[..i + 1])
  {
    hide Own, Addressed, Connected;
    NothingAddressed();
    ConnectedMore(steps, i);
    forall fd | fd in Connected(steps[..i + 1])
      ensures Addressed(steps[..i + 1], fd) ==
                Addressed(steps[..i], fd) + if steps[i].On? && steps[i].fd == fd then [steps[i].a] else []
    {
      AddressedMore(steps, i, fd);
    }
    if steps[i].Connect? { NotYetAddressed(steps, i, steps[i].fd); }
  }
}
