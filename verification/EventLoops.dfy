/** The event loop's bookkeeping: the registered channels, the selector's keys and the
    connect deadlines, mutated by every step and kept in agreement.

    The channels of the dictionary are values of type Lifecycle.Channel; `gone` keeps
    the closed ones, which the application may still hold. */
module EventLoops {
  import opened Pipeline
  import opened Lifecycle
  import opened ConnectTimeouts
  import opened Bookkeeping
  import opened LoopScripts

  class EventLoop {
    const low: int
    const high: int
    var channels: map<Fd, Channel>
    var due: map<Fd, int>             // _connect_timeout_due_millis
    var selector: map<Fd, Interest>   // the selector's keys and their events
    ghost var gone: map<Fd, Channel>

    constructor (low: int, high: int)
      requires 0 <= low < high
      ensures Valid() && channels == map[] && gone == map[] && this.low == low && this.high == high
    {
      this.low, this.high := low, high;
      channels, due, selector, gone := map[], map[], map[], map[];
    }

    ghost predicate SelectorAgrees()
      reads this`channels, this`selector
    {
      Watches(channels, selector)
    }

    ghost predicate Valid()
      reads this
    {
      && 0 <= low < high
      && SelectorAgrees()
      && Deadlines(channels, due)
      && Alive(channels) && Dead(gone) && channels.Keys !! gone.Keys
    }

    /** Nothing but the channel fd changed, and it is now c. */
    twostate predicate Becomes(fd: Fd, c: Channel)
      reads this`channels, this`gone, this`due
    {
      && channels == Moved(old(channels), fd, c)
      && gone == MovedGone(old(gone), fd, c)
      && due == MovedDue(old(due), fd, c)
    }

    /** modify_flag: bring the selector up to date with the channel's flag. */
    method ModifyFlag(fd: Fd)
      requires fd in channels
      modifies this`selector
      ensures var flag := channels[fd].flag;
              selector == if flag == NONE then old(selector) - {fd} else old(selector)[fd := flag]
    {
      var flag := channels[fd].flag;
      if flag == NONE {
        if fd in selector { selector := selector - {fd}; }  // the KeyError otherwise is caught by the caller
        return;
      }
      if fd !in selector {
        selector := selector[fd := flag];
      } else if selector[fd] != flag {
        selector := selector[fd := flag];
      }
    }

    method AddFlag(fd: Fd, bit: Bit)
      requires SelectorAgrees() && fd in channels
      modifies this`channels, this`selector
      ensures SelectorAgrees()
      ensures channels == old(channels)[fd := old(channels)[fd].(flag := With(old(channels)[fd].flag, bit, true))]
    {
      var c := channels[fd];
      if Has(c.flag, bit) {
        Unchanged(channels, fd);
        return;
      }
      channels := channels[fd := c.(flag := With(c.flag, bit, true))];
      ModifyFlag(fd);
    }

    method RemoveFlag(fd: Fd, bit: Bit)
      requires SelectorAgrees() && fd in channels
      modifies this`channels, this`selector
      ensures SelectorAgrees()
      ensures channels == old(channels)[fd := old(channels)[fd].(flag := With(old(channels)[fd].flag, bit, false))]
    {
      var c := channels[fd];
      if !Has(c.flag, bit) {
        Unchanged(channels, fd);
        return;
      }
      channels := channels[fd := c.(flag := With(c.flag, bit, false))];
      ModifyFlag(fd);
    }

    /** register, for a client channel with a descriptor never seen before. */
    method RegisterClient(fd: Fd, tls: bool, now: int, connectTimeoutMillis: int)
      requires Valid() && fd !in channels && fd !in gone
      modifies this
      ensures Valid() && gone == old(gone)
      ensures channels == old(channels)[fd := Register(tls, low, high)]
      ensures due == old(due)[fd := now + connectTimeoutMillis]
    {
      hide LifeInv;
      RegisterKeeps(tls, low, high);
      OneChannelMore(channels, due, gone, selector, fd, Register(tls, low, high), now + connectTimeoutMillis);
      selector := selector[fd := BOTH];
      channels := channels[fd := Register(tls, low, high)];
      due := due[fd := now + connectTimeoutMillis];
    }

    /** unregister, as the last part of closing: the handler hears of it only if the
        selector knew the channel. */
    method Unregister(fd: Fd, c: Channel) returns (r: Channel)
      modifies this`selector, this`channels, this`due
      ensures r == if fd in old(selector) then Fire(c, Unregistered) else c
      ensures selector == old(selector) - {fd} && channels == old(channels) - {fd} && due == old(due) - {fd}
    {
      r := c;
      if fd in selector {
        selector := selector - {fd};
        r := Fire(c, Unregistered);
      }
      channels := channels - {fd};
      due := due - {fd};
    }

    /** _close_channel_internally. */
    method CloseChannel(fd: Fd)
      requires SelectorAgrees() && fd in channels && Inv(channels[fd].pipe) && !channels[fd].closed
      modifies this
      ensures SelectorAgrees() && Becomes(fd, Close(old(channels)[fd]))
      ensures selector == old(selector) - {fd}
    {
      hide Inv, Shut;
      var c := FailWork(channels[fd]);
      c := SetActive(c.(closed := true), false);
      c := Unregister(fd, c);
      gone := gone[fd := c];
    }

    /** The channel fd, registered or gone. */
    ghost function Current(fd: Fd): Channel
      requires fd in channels || fd in gone
      reads this`channels, this`gone
    {
      if fd in channels then channels[fd] else gone[fd]
    }

    /** _set_ssl_handshake_interest. */
    method SetHandshakeInterest(fd: Fd, wantRead: bool)
      requires SelectorAgrees() && fd in channels
      modifies this`channels, this`selector
      ensures SelectorAgrees()
      ensures var c := old(channels)[fd];
              var flag := if wantRead then Interest(true, false) else c.flag.(write := true);
              channels == old(channels)[fd := c.(flag := flag)]
    {
      if wantRead {
        ghost var m := channels;
        AddFlag(fd, ReadBit);
        ghost var d := channels[fd];
        RemoveFlag(fd, WriteBit);
        Overwrite(m, fd, d, channels[fd]);
      } else {
        AddFlag(fd, WriteBit);
      }
    }

    /** _activate_channel. */
    method ActivateChannel(fd: Fd)
      requires SelectorAgrees() && fd in channels
      modifies this`channels, this`due
      ensures SelectorAgrees()
      ensures channels == old(channels)[fd := Activate(old(channels)[fd])] && due == old(due) - {fd}
    {
      var c := SetActive(channels[fd], true);
      SameFlag(channels, selector, fd, Activate(channels[fd]));
      channels := channels[fd := c.(connect := if c.connect == Unset then Success else c.connect)];
      due := due - {fd};
    }

    /** The end of _complete_ssl_handshake, when the handshake is done. */
    method FinishHandshake(fd: Fd)
      requires SelectorAgrees() && fd in channels && Inv(channels[fd].pipe)
      modifies this`channels, this`selector, this`due
      ensures SelectorAgrees() && due == old(due) - {fd}
      ensures channels == old(channels)[fd := HandshakeStep(old(channels)[fd], Done).0]
    {
      ghost var m := channels;
      var c := Fire(channels[fd].(handshakeDone := true), HandshakeComplete);
      channels := channels[fd := c];
      ActivateChannel(fd);
      Overwrite(m, fd, c, Activate(c));
      if Activate(c).pipe.pendings != [] {
        AddFlag(fd, WriteBit);
        Overwrite(m, fd, Activate(c), channels[fd]);
      }
    }

    /** _complete_ssl_handshake. */
    method CompleteSslHandshake(fd: Fd, h: Handshake) returns (ok: bool)
      requires SelectorAgrees() && fd in channels && Inv(channels[fd].pipe)
      requires !channels[fd].closed && !channels[fd].everActive && !channels[fd].active
      modifies this
      ensures SelectorAgrees()
      ensures var (c, r) := HandshakeStep(old(channels)[fd], h);
              ok == r && Becomes(fd, c)
    {
      hide Inv, Shut;
      match h {
        case WantRead => SetHandshakeInterest(fd, true); return false;
        case WantWrite => SetHandshakeInterest(fd, false); return false;
        case Fails => CloseChannel(fd); return false;
        case Done => FinishHandshake(fd); return true;
      }
    }

    /** _check_channel_active: the code's map updates add up to `CheckActive`. */
    method CheckChannelActive(fd: Fd, k: Answer) returns (ok: bool)
      requires Valid() && fd in channels
      modifies this
      ensures Valid() && Becomes(fd, CheckActive(old(channels)[fd], k).0)
      ensures ok == CheckActive(old(channels)[fd], k).1
    {
      hide Inv, LifeInv, Close, HandshakeStep, Watches, Follows;
      ghost var c := channels[fd];
      InvOf(c);
      CheckActiveKeeps(c, k);
      CheckActiveFollows(c, k);
      if channels[fd].everActive {
        Unchanged(channels, fd);
        Absent(due, fd);
        ok := true;
      } else if k.connectFailed {
        CloseChannel(fd);
        ok := false;
      } else if channels[fd].tls && !channels[fd].handshakeDone {
        ok := CompleteSslHandshake(fd, k.handshake);
      } else {
        ActivateChannel(fd);
        ok := true;
      }
      OneChannelMoves(old(channels), old(due), old(gone), fd, CheckActive(c, k).0);
    }

    /** _send_pending_chunks, on the loop's side of it. */
    method SendPendingChunks(fd: Fd, offer: nat)
      requires Valid() && fd in channels && channels[fd].active
      modifies this
      ensures Valid() && Becomes(fd, SendPending(old(channels)[fd], offer))
    {
      hide Inv, LifeInv, Close, Flush, Sendable, Watches, Deadlines, Dead, Moved, MovedGone, MovedDue;
      ghost var c, ch, deadlines, g := channels[fd], channels, due, gone;
      InvOf(c);
      Sizes(c.pipe);
      SendPendingKeeps(c, offer);
      SendPendingFollows(c, offer);
      FlushKeepsInv(c.pipe, Min(offer, Sendable(c.pipe.pendings)));
      OneChannelMoves(channels, due, gone, fd, SendPending(c, offer));
      var d := channels[fd].(pipe := Flush(channels[fd].pipe, Min(offer, Sendable(channels[fd].pipe.pendings))));
      SameFlag(channels, selector, fd, d);
      FlagChanged(channels, due, gone, fd, d);
      channels := channels[fd := d];
      if AtMarker(d.pipe.pendings) {
        CloseChannel(fd);
        MovedTwice(ch, deadlines, g, fd, d, Close(d));
      }
    }

    /** _check_writability, at the end of the write half; the pass may just have closed the channel. */
    method CheckWritabilityOf(fd: Fd)
      requires Valid() && (fd in channels || fd in gone)
      requires LifeInv(CheckWritability(Current(fd)))
      modifies this`channels, this`gone
      ensures Valid() && Becomes(fd, CheckWritability(old(Current(fd))))
    {
      hide LifeInv, Watches, Deadlines, Moved, MovedDue, MovedGone;
      ghost var r := CheckWritability(Current(fd));
      WritabilityFollows(Current(fd));
      if fd in channels {
        var c := CheckWritability(channels[fd]);
        SameFlag(channels, selector, fd, c);
        FlagChanged(channels, due, gone, fd, c);
        OneChannelMoves(channels, due, gone, fd, c);
        channels := channels[fd := c];
      } else {
        OneGoneMoves(channels, due, gone, fd, r);
        gone := gone[fd := r];
      }
    }

    /** RemoveFlag(EVENT_WRITE), for a channel with nothing queued. */
    method StopWriting(fd: Fd)
      requires Valid() && fd in channels && channels[fd].active && channels[fd].pipe.pendings == []
      modifies this`channels, this`selector
      ensures Valid() && Becomes(fd, RemoveWrite(old(channels)[fd]))
    {
      hide Inv, PhaseOf, Calm;
      var c := channels[fd];
      RemoveFlag(fd, WriteBit);
      FlagChanged(old(channels), due, gone, fd, RemoveWrite(c));
      OneChannelMoves(old(channels), due, gone, fd, RemoveWrite(c));
    }

    /** The EVENT_WRITE half of the loop body. */
    method HandleWritable(fd: Fd, k: Answer, offer: nat) returns (go: bool)
      requires Valid() && fd in channels
      modifies this
      ensures Valid() && Becomes(fd, OnWritable(old(channels)[fd], k, offer).0)
      ensures go == OnWritable(old(channels)[fd], k, offer).1
    {
      hide Inv, LifeInv, CheckActive, SendPending, CheckWritability, Moved, MovedGone, MovedDue;
      ghost var c, ch, d, g := channels[fd], channels, due, gone;
      InvOf(c);
      CheckActiveKeeps(c, k);
      go := CheckChannelActive(fd, k);
      if go {
        ghost var a := CheckActive(c, k).0;
        InvOf(a);
        MovedHas(ch, g, fd, a);
        ghost var s := AfterSend(fd, a, offer);
        CheckWritabilityKeeps(s);
        WritabilityFollows(s);
        CheckWritabilityOf(fd);
        MovedTwice(ch, d, g, fd, a, s);
        MovedTwice(ch, d, g, fd, s, CheckWritability(s));
      }
    }

    /** Its middle part, for an active channel: stop asking when nothing is queued, or send. */
    method AfterSend(fd: Fd, ghost a: Channel, offer: nat) returns (ghost s: Channel)
      requires Valid() && fd in channels && channels[fd] == a && a.active
      modifies this
      ensures s == if a.pipe.pendings == [] then RemoveWrite(a)
                   else var t := SendPending(a, offer); if !t.closed && t.pipe.pendings == [] then RemoveWrite(t) else t
      ensures Valid() && Becomes(fd, s) && LifeInv(s) && (a.everActive ==> s.everActive)
      ensures (fd in channels || fd in gone) && Current(fd) == s && (s.active || s.pipe.pendingBytes == 0)
    {
      hide Inv, LifeInv, SendPending, Moved, MovedGone, MovedDue;
      ghost var ch, d, g := channels, due, gone;
      InvOf(a);
      if channels[fd].pipe.pendings == [] {
        StopWriting(fd);
        s := RemoveWrite(a);
        RemoveWriteKeeps(a);
        MovedHas(ch, g, fd, s);
        return;
      }
      SendPendingKeeps(a, offer);
      SendPendingFollows(a, offer);
      SendPendingChunks(fd, offer);
      s := SendPending(a, offer);
      MovedHas(ch, g, fd, s);
      if fd in channels && channels[fd].pipe.pendings == [] {
        StopWriting(fd);
        MovedTwice(ch, d, g, fd, s, RemoveWrite(s));
        RemoveWriteKeeps(s);
        s := RemoveWrite(s);
        MovedHas(ch, g, fd, s);
      }
    }

    /** The EVENT_READ half of the loop body. */
    method HandleReadable(fd: Fd, k: Answer, data: seq<byte>, eof: bool)
      requires Valid() && fd in channels
      modifies this
      ensures Valid() && Becomes(fd, OnReadable(old(channels)[fd], k, data, eof))
    {
      hide Inv, LifeInv, CheckActive, Moved, MovedGone, MovedDue, Close;
      ghost var c, ch, d, g := channels[fd], channels, due, gone;
      InvOf(c);
      CheckActiveKeeps(c, k);
      OnReadableKeeps(c, k, data, eof);
      ghost var a := c;
      MovedSame(ch, d, g, fd);
      if !IsActive(channels[fd]) {
        a := CheckActive(c, k).0;
        MovedHas(ch, g, fd, a);
        var ok := CheckChannelActive(fd, k);
        if !ok { return; }
      }
      InvOf(a);
      if data != [] {
        ReadKeeps(a, data);
        var r := Fire(channels[fd], Read(data));
        FlagChanged(channels, due, gone, fd, r);
        SameFlag(channels, selector, fd, r);
        OneChannelMoves(channels, due, gone, fd, r);
        channels := channels[fd := r];
        MovedTwice(ch, d, g, fd, a, r);
      } else if eof {
        CloseKeeps(a);
        CloseFollows(a);
        OneChannelMoves(channels, due, gone, fd, Close(a));
        CloseChannel(fd);
        MovedTwice(ch, d, g, fd, a, Close(a));
      }
    }

    /** The loop body for one ready descriptor; a descriptor closed meanwhile is skipped. */
    method HandleReady(fd: Fd, event: Interest, first: Answer, offer: nat, second: Answer, data: seq<byte>, eof: bool)
      requires Valid()
      modifies this
      ensures Valid()
      ensures fd !in old(channels) ==> channels == old(channels) && gone == old(gone) && due == old(due)
      ensures fd in old(channels) ==>
                Becomes(fd, HandleEvent(old(channels)[fd], Ready(event, first, offer, second, data, eof)))
    {
      hide Inv, LifeInv, OnWritable, OnReadable, Moved, MovedGone, MovedDue;
      if fd !in channels { return; }
      ghost var c, ch, d, g := channels[fd], channels, due, gone;
      InvOf(c);
      OnWritableKeeps(c, first, offer);
      OnWritableFollows(c, first, offer);
      MovedSame(ch, d, g, fd);
      ghost var w := c;
      var go := true;
      if event.write {
        go := HandleWritable(fd, first, offer);
        w := OnWritable(c, first, offer).0;
      }
      MovedHas(ch, g, fd, w);
      if go && event.read && fd in channels {
        InvOf(w);
        OnReadableFollows(w, second, data, eof);
        HandleReadable(fd, second, data, eof);
        MovedTwice(ch, d, g, fd, w, OnReadable(w, second, data, eof));
      }
    }

    /** write, as it runs in the loop: whatever it queues makes the channel ask for writability. */
    method Write(fd: Fd, data: seq<byte>, offer: nat)
      requires Valid() && fd in channels
      modifies this`channels, this`selector
      ensures Valid() && Becomes(fd, AppWrite(old(channels)[fd], data, offer))
    {
      hide Inv, LifeInv, Pipeline.Write, Watches, Deadlines, Dead, Moved, MovedGone, MovedDue;
      ghost var m := channels;
      var c := channels[fd];
      InvOf(c);
      Sizes(c.pipe);
      AppKeeps(c, Action.Write(data, offer));
      var p := Pipeline.Write(c.pipe, IsActive(c), data, offer);
      SameFlag(channels, selector, fd, c.(pipe := p));
      channels := channels[fd := c.(pipe := p)];
      if |p.pendings| > |c.pipe.pendings| {
        AddFlag(fd, WriteBit);
        Overwrite(m, fd, c.(pipe := p), channels[fd]);
      }
      FlagChanged(m, due, gone, fd, AppWrite(c, data, offer));
      OneChannelMoves(m, due, gone, fd, AppWrite(c, data, offer));
    }

    /** close_gracefully: queue a close marker behind everything written so far. */
    method CloseGracefully(fd: Fd)
      requires Valid() && fd in channels
      modifies this`channels, this`selector
      ensures Valid() && Becomes(fd, AppCloseGracefully(old(channels)[fd]))
    {
      hide Inv, LifeInv, Append, Watches, Deadlines, Dead, Moved, MovedGone, MovedDue;
      ghost var m := channels;
      var c := channels[fd];
      InvOf(c);
      AppKeeps(c, Action.CloseGracefully);
      MovedSame(m, due, gone, fd);
      if !IsActive(c) { return; }
      var d := c.(pipe := Pipeline.CloseGracefully(c.pipe, true));
      SameFlag(channels, selector, fd, d);
      channels := channels[fd := d];
      AddFlag(fd, WriteBit);
      Overwrite(m, fd, d, channels[fd]);
      FlagChanged(m, due, gone, fd, AppCloseGracefully(c));
      OneChannelMoves(m, due, gone, fd, AppCloseGracefully(c));
    }

    /** set_auto_read. */
    method SetAutoRead(fd: Fd, on: bool)
      requires Valid() && fd in channels
      modifies this`channels, this`selector
      ensures Valid() && Becomes(fd, AppSetAutoRead(old(channels)[fd], on))
    {
      hide Inv, LifeInv, Watches, Deadlines, Dead, Moved, MovedGone, MovedDue;
      ghost var m := channels;
      var c := channels[fd];
      AppKeeps(c, Action.SetAutoRead(on));
      MovedSame(m, due, gone, fd);
      if c.autoRead == on { return; }
      var d := c.(autoRead := on, asked := on);
      SameFlag(channels, selector, fd, d);
      channels := channels[fd := d];
      if on {
        AddFlag(fd, ReadBit);
      } else {
        RemoveFlag(fd, ReadBit);
      }
      Overwrite(m, fd, d, channels[fd]);
      FlagChanged(m, due, gone, fd, AppSetAutoRead(c, on));
      OneChannelMoves(m, due, gone, fd, AppSetAutoRead(c, on));
    }

    /** Its first half on a thread other than the loop's: nothing but the field changes. */
    method AssignAutoRead(fd: Fd, on: bool)
      requires Valid() && fd in channels
      modifies this`channels
      ensures Valid() && Becomes(fd, old(channels)[fd].(autoRead := on))
    {
      hide Inv, LifeInv, Watches, Deadlines, Dead, Moved, MovedGone, MovedDue;
      ghost var m := channels;
      var c := channels[fd];
      var d := c.(autoRead := on);
      AppKeeps(c, Action.AssignAutoRead(on));
      SameFlag(channels, selector, fd, d);
      channels := channels[fd := d];
      FlagChanged(m, due, gone, fd, d);
      OneChannelMoves(m, due, gone, fd, d);
    }

    /** Its second half, the submitted task. */
    method ChangeRead(fd: Fd, on: bool)
      requires Valid() && fd in channels
      modifies this`channels, this`selector
      ensures Valid() && Becomes(fd, AppChangeRead(old(channels)[fd], on))
    {
      hide Inv, LifeInv, Watches, Deadlines, Dead, Moved, MovedGone, MovedDue;
      ghost var m := channels;
      var c := channels[fd];
      AppKeeps(c, Action.ChangeRead(on));
      var d := c.(asked := on);
      SameFlag(channels, selector, fd, d);
      channels := channels[fd := d];
      if on {
        AddFlag(fd, ReadBit);
      } else {
        RemoveFlag(fd, ReadBit);
      }
      Overwrite(m, fd, d, channels[fd]);
      FlagChanged(m, due, gone, fd, AppChangeRead(c, on));
      OneChannelMoves(m, due, gone, fd, AppChangeRead(c, on));
    }

    /** close_forcibly. */
    method CloseForcibly(fd: Fd)
      requires Valid() && fd in channels
      modifies this
      ensures Valid() && Becomes(fd, Close(old(channels)[fd]))
      ensures selector == old(selector) - {fd}
    {
      hide Inv, LifeInv, Close;
      ghost var c := channels[fd];
      InvOf(c);
      CloseKeeps(c);
      CloseFollows(c);
      OneChannelMoves(channels, due, gone, fd, Close(c));
      CloseChannel(fd);
    }

    /** _poll_timeout, with the clock and the logging configuration as inputs. */
    method PollTimeout(now: int, config: Config) returns (w: Wait)
      ensures forall earliest :: (due != map[] ==> IsEarliest(due, earliest)) ==>
                w == ConnectTimeouts.PollTimeout(due, earliest, now, config)
    {
      var nearest := 0;
      if due != map[] {
        var fd :| fd in due;
        nearest := due[fd];
        var left := due.Keys - {fd};
        while left != {}
          invariant left <= due.Keys && (exists g :: g in due && due[g] == nearest)
          invariant forall g :: g in due && g !in left ==> nearest <= due[g]
        {
          var g :| g in left;
          if due[g] < nearest { nearest := due[g]; }
          left := left - {g};
        }
      }
      w := ConnectTimeouts.PollTimeout(due, nearest, now, config);
    }

    /** _process_connection_timeout: exactly the overdue entries go, and exactly their channels close. */
    method ProcessConnectionTimeout(now: int)
      requires Valid()
      modifies this
      ensures Valid()
      ensures AllClosed(old(channels), old(due), old(gone), channels, due, gone, Overdue(old(due), now))
      ensures forall fd :: fd in old(due) ==>
                (fd in due <==> now < old(due)[fd]) && (fd in channels <==> now < old(due)[fd])
    {
      hide Inv, LifeInv, Close, Watches, Alive, Dead, Deadlines, AllClosed;
      if due == map[] {
        NothingOverdue(due, now);
        NoneClosed(channels, due, gone);
        LeftAhead(channels, due, gone, channels, due, gone, now);
        return;
      }
      ghost var ch, d, g := channels, due, gone;
      var snapshot := due;
      var left, toDelete := snapshot.Keys, {};
      NoneClosed(channels, due, gone);
      while left != {}
        invariant Valid() && left <= snapshot.Keys
        invariant toDelete == Overdue(snapshot, now) - left
        invariant AllClosed(ch, d, g, channels, due, gone, toDelete)
      {
        var fd :| fd in left;
        left := left - {fd};
        if snapshot[fd] <= now {
          StillConnecting(ch, d, g, channels, due, gone, toDelete, fd);
          if fd in channels && !channels[fd].everActive {
            OneMoreClosed(ch, d, g, channels, due, gone, toDelete, fd);
            CloseForcibly(fd);
          }
          toDelete := toDelete + {fd};
        }
      }
      assert toDelete == Overdue(snapshot, now);
      AlreadyGone(ch, d, g, channels, due, gone, toDelete);
      LeftAhead(ch, d, g, channels, due, gone, now);
      due := due - toDelete;
    }

    /** _cleanup_resources, run by the loop's thread: every registered channel is closed. */
    method Cleanup()
      requires Valid()
      modifies this
      ensures Valid() && channels == map[] && due == map[] && selector == map[]
      ensures AllClosed(old(channels), old(due), old(gone), channels, due, gone, old(channels).Keys)
      ensures forall fd :: fd in old(channels) ==> fd in gone && Discharged(gone[fd])
    {
      hide Inv, LifeInv, Close, Discharged;
      ghost var ch, d, g := channels, due, gone;
      var left := channels.Keys;
      ghost var done: set<Fd> := {};
      NoneClosed(channels, due, gone);
      while left != {}
        invariant Valid() && left == channels.Keys
        invariant done == ch.Keys - left && AllClosed(ch, d, g, channels, due, gone, done)
      {
        var fd :| fd in left;
        left := left - {fd};
        OneMoreClosed(ch, d, g, channels, due, gone, done, fd);
        CloseForcibly(fd);
        done := done + {fd};
      }
      assert done == ch.Keys;
      forall fd | fd in ch ensures Discharged(gone[fd]) { CloseDischarges(ch[fd]); }
    }

    /** Any one action of the application or the kernel on a channel, registered or closed. */
    method Apply(fd: Fd, a: Action)
      requires Valid() && (fd in channels || fd in gone) && !a.ConnectTimeout?
      modifies this
      ensures Valid() && Becomes(fd, Do(old(Current(fd)), a))
    {
      hide Inv, LifeInv, HandleEvent, AppWrite, AppCloseGracefully, AppSetAutoRead, AppChangeRead, Close;
      hide Moved, MovedGone, MovedDue;
      if fd in channels {
        match a {
          case Ready(event, first, offer, second, data, eof) => HandleReady(fd, event, first, offer, second, data, eof);
          case Write(data, offer) => Write(fd, data, offer);
          case CloseGracefully => CloseGracefully(fd);
          case CloseForcibly => CloseForcibly(fd);
          case SetAutoRead(on) => SetAutoRead(fd, on);
          case AssignAutoRead(on) => AssignAutoRead(fd, on);
          case ChangeRead(on) => ChangeRead(fd, on);
        }
      } else {
        DoKeeps(gone[fd], a);
        DoFollows(gone[fd], a);
        OneGoneMoves(channels, due, gone, fd, Do(gone[fd], a));
        gone := gone[fd := Do(gone[fd], a)];
      }
    }

    /** The loop over any script of events: registrations, readiness, calls of the application,
        timeout passes, in any order and for any number of channels.  Every channel ends as its own
        state machine says for the actions addressed to it, whatever happened to the others; only
        connect timeouts come on top. */
    method Drive(steps: seq<LoopStep>) returns (ghost h: map<Fd, History>)
      requires Valid() && channels == map[] && gone == map[] && Script(steps)
      modifies this
      ensures Valid() && Recorded(low, high, channels, gone, h) && Faithful(h, steps)
    {
      hide Inv, LifeInv, Alive, Dead, Deadlines, Watches, AllClosed, Moved, MovedGone, MovedDue;
      hide Recorded, Replay, Do, Script, Faithful;
      h := map[];
      NothingRecorded(low, high, channels, gone);
      NothingAddressed();
      for i := 0 to |steps|
        invariant Valid() && Recorded(low, high, channels, gone, h) && Faithful(h, steps[..i])
      {
        FaithfulStep(h, steps, i);
        ghost var d := due;
        match steps[i] {
          case Connect(fd, tls, now, timeout) =>
            Known(low, high, channels, gone, h, fd);
            RecordConnect(low, high, channels, gone, h, fd, tls);
            RegisterClient(fd, tls, now, timeout);
            h := h[fd := History(tls, [])];
          case On(fd, a) =>
            Known(low, high, channels, gone, h, fd);
            RecordOne(low, high, channels, gone, h, fd, a);
            Apply(fd, a);
            h := h[fd := More(h[fd], a)];
          case Timeouts(now) =>
            RecordTimeouts(low, high, channels, due, gone, h, now);
            ProcessConnectionTimeout(now);
            h := TimedOut(h, Overdue(d, now));
        }
      }
      assert steps[..|steps|] == steps;
    }
  }
}
