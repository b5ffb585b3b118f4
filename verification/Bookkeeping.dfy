/** The event loop's dictionaries as values: what keeps them in agreement when one channel moves
    on, when one is added, and when several are closed. */
module Bookkeeping {
  import opened Pipeline
  import opened Lifecycle
  import opened ConnectTimeouts

  datatype Bit = ReadBit | WriteBit

  predicate Has(i: Interest, bit: Bit) { if bit.ReadBit? then i.read else i.write }

  function With(i: Interest, bit: Bit, on: bool): Interest {
    if bit.ReadBit? then i.(read := on) else i.(write := on)
  }

  /** The selector watches exactly the open channels that ask for something, for just that. */
  ghost predicate Watches(channels: map<Fd, Channel>, selector: map<Fd, Interest>) {
    && (forall fd :: fd in selector <==> fd in channels && channels[fd].flag != NONE)
    && (forall fd :: fd in selector ==> selector[fd] == channels[fd].flag)
  }

  /** A deadline is pending exactly for the channels that have never been active. */
  ghost predicate Deadlines(channels: map<Fd, Channel>, due: map<Fd, int>) {
    forall fd :: fd in due <==> fd in channels && !channels[fd].everActive
  }

  ghost predicate Alive(channels: map<Fd, Channel>) {
    forall fd :: fd in channels ==> LifeInv(channels[fd]) && !channels[fd].closed
  }

  ghost predicate Dead(gone: map<Fd, Channel>) {
    forall fd :: fd in gone ==> LifeInv(gone[fd]) && gone[fd].closed
  }

  /** The dictionaries when the channel fd has become c: closed channels leave them, and the
      deadline goes when the channel closes or becomes active. */
  function Moved(channels: map<Fd, Channel>, fd: Fd, c: Channel): map<Fd, Channel> {
    if c.closed then channels - {fd} else channels[fd := c]
  }

  function MovedGone(gone: map<Fd, Channel>, fd: Fd, c: Channel): map<Fd, Channel> {
    if c.closed then gone[fd := c] else gone
  }

  function MovedDue(due: map<Fd, int>, fd: Fd, c: Channel): map<Fd, int> {
    if c.closed || c.everActive then due - {fd} else due
  }

  /** One channel moving on keeps the dictionaries in agreement. */
  lemma OneChannelMoves(channels: map<Fd, Channel>, due: map<Fd, int>, gone: map<Fd, Channel>, fd: Fd, c: Channel)
    requires Deadlines(channels, due) && Alive(channels) && Dead(gone) && channels.Keys !! gone.Keys
    requires fd in channels && LifeInv(c) && (channels[fd].everActive ==> c.everActive)
    ensures Deadlines(Moved(channels, fd, c), MovedDue(due, fd, c)) && Alive(Moved(channels, fd, c))
    ensures Dead(MovedGone(gone, fd, c)) && Moved(channels, fd, c).Keys !! MovedGone(gone, fd, c).Keys
  {
    hide LifeInv;
  }

  lemma MovedTwice(channels: map<Fd, Channel>, due: map<Fd, int>, gone: map<Fd, Channel>,
                   fd: Fd, c: Channel, d: Channel)
    requires (c.closed ==> d.closed) && (c.everActive ==> d.everActive)
    ensures Moved(Moved(channels, fd, c), fd, d) == Moved(channels, fd, d)
    ensures MovedGone(MovedGone(gone, fd, c), fd, d) == MovedGone(gone, fd, d)
    ensures MovedDue(MovedDue(due, fd, c), fd, d) == MovedDue(due, fd, d)
  {
  }

  lemma FlagChanged(channels: map<Fd, Channel>, due: map<Fd, int>, gone: map<Fd, Channel>, fd: Fd, c: Channel)
    requires fd in channels && Deadlines(channels, due) && !c.closed && c.everActive == channels[fd].everActive
    ensures Moved(channels, fd, c) == channels[fd := c] && MovedGone(gone, fd, c) == gone && MovedDue(due, fd, c) == due
  {
    if c.everActive { Absent(due, fd); }
  }

  lemma SameFlag(channels: map<Fd, Channel>, selector: map<Fd, Interest>, fd: Fd, c: Channel)
    requires Watches(channels, selector) && fd in channels && c.flag == channels[fd].flag
    ensures Watches(channels[fd := c], selector)
  {
  }

  lemma OneChannelMore(channels: map<Fd, Channel>, due: map<Fd, int>, gone: map<Fd, Channel>,
                       selector: map<Fd, Interest>, fd: Fd, c: Channel, deadline: int)
    requires Deadlines(channels, due) && Alive(channels) && channels.Keys !! gone.Keys && Watches(channels, selector)
    requires fd !in channels && fd !in gone && LifeInv(c) && !c.closed && !c.everActive && c.flag != NONE
    ensures Deadlines(channels[fd := c], due[fd := deadline]) && Alive(channels[fd := c])
    ensures channels[fd := c].Keys !! gone.Keys && Watches(channels[fd := c], selector[fd := c.flag])
  {
    hide LifeInv;
  }

  /** The dictionaries after closing the channels fds, and nothing else. */
  ghost predicate AllClosed(ch0: map<Fd, Channel>, due0: map<Fd, int>, gone0: map<Fd, Channel>,
                            ch: map<Fd, Channel>, due: map<Fd, int>, gone: map<Fd, Channel>, fds: set<Fd>)
    requires Alive(ch0)
  {
    && fds <= ch0.Keys
    && ch == ch0 - fds && due == due0 - fds
    && gone.Keys == gone0.Keys + fds
    && (forall fd :: fd in gone0 && fd !in fds ==> gone[fd] == gone0[fd])
    && (forall fd :: fd in fds ==> gone[fd] == Close(ch0[fd]))
  }

  lemma NoneClosed(ch: map<Fd, Channel>, due: map<Fd, int>, gone: map<Fd, Channel>)
    requires Alive(ch)
    ensures AllClosed(ch, due, gone, ch, due, gone, {})
  {
    hide LifeInv, Close;
  }

  /** A deadline not dealt with yet belongs to a registered channel that was never active. */
  lemma StillConnecting(ch0: map<Fd, Channel>, due0: map<Fd, int>, gone0: map<Fd, Channel>,
                        ch: map<Fd, Channel>, due: map<Fd, int>, gone: map<Fd, Channel>, fds: set<Fd>, fd: Fd)
    requires Alive(ch0) && AllClosed(ch0, due0, gone0, ch, due, gone, fds) && fd in due0 && fd !in fds
    requires Deadlines(ch, due) && Alive(ch)
    ensures fd in ch && !ch[fd].everActive && LifeInv(ch[fd])
  {
    hide LifeInv, Close;
  }

  lemma AlreadyGone(ch0: map<Fd, Channel>, due0: map<Fd, int>, gone0: map<Fd, Channel>,
                    ch: map<Fd, Channel>, due: map<Fd, int>, gone: map<Fd, Channel>, fds: set<Fd>)
    requires Alive(ch0) && AllClosed(ch0, due0, gone0, ch, due, gone, fds)
    ensures due - fds == due
  {
    hide LifeInv, Close;
  }

  /** After a timeout pass exactly the entries still ahead are left, and exactly their channels. */
  lemma LeftAhead(ch0: map<Fd, Channel>, due0: map<Fd, int>, gone0: map<Fd, Channel>,
                  ch: map<Fd, Channel>, due: map<Fd, int>, gone: map<Fd, Channel>, now: int)
    requires Alive(ch0) && Deadlines(ch0, due0) && AllClosed(ch0, due0, gone0, ch, due, gone, Overdue(due0, now))
    ensures forall fd :: fd in due0 ==> (fd in due <==> now < due0[fd]) && (fd in ch <==> now < due0[fd])
  {
    hide LifeInv, Close;
  }

  lemma NothingOverdue(due: map<Fd, int>, now: int)
    requires due == map[]
    ensures Overdue(due, now) == {}
  {
  }

  lemma OneMoreClosed(ch0: map<Fd, Channel>, due0: map<Fd, int>, gone0: map<Fd, Channel>,
                      ch: map<Fd, Channel>, due: map<Fd, int>, gone: map<Fd, Channel>, fds: set<Fd>, fd: Fd)
    requires Alive(ch0) && AllClosed(ch0, due0, gone0, ch, due, gone, fds) && fd in ch
    requires LifeInv(ch[fd]) && ch0.Keys !! gone0.Keys
    ensures var c := Close(ch[fd]);
            AllClosed(ch0, due0, gone0, Moved(ch, fd, c), MovedDue(due, fd, c), MovedGone(gone, fd, c), fds + {fd})
  {
    hide Inv, LifeInv, Close;
    InvOf(ch[fd]);
    CloseKeeps(ch[fd]);
    assert ch - {fd} == ch0 - (fds + {fd});
    assert due - {fd} == due0 - (fds + {fd});
  }

  /** A closed channel that the application still calls. */
  lemma OneGoneMoves(channels: map<Fd, Channel>, due: map<Fd, int>, gone: map<Fd, Channel>, fd: Fd, c: Channel)
    requires Deadlines(channels, due) && Dead(gone) && channels.Keys !! gone.Keys
    requires fd in gone && LifeInv(c) && c.closed
    ensures Moved(channels, fd, c) == channels && MovedDue(due, fd, c) == due
    ensures MovedGone(gone, fd, c) == gone[fd := c] && Dead(gone[fd := c]) && channels.Keys !! gone[fd := c].Keys
  {
    hide LifeInv;
    Absent(channels, fd);
    Absent(due, fd);
  }

  // ---- small steps of the proofs ----

  lemma ReadKeeps(c: Channel, data: seq<byte>)
    requires LifeInv(c) && c.active
    ensures LifeInv(Fire(c, Read(data)))
  {
    hide Inv, PhaseOf, Calm;
    Fired(c, Read(data));
  }

  lemma MovedSame(channels: map<Fd, Channel>, due: map<Fd, int>, gone: map<Fd, Channel>, fd: Fd)
    requires fd in channels && !channels[fd].closed && Deadlines(channels, due)
    ensures Moved(channels, fd, channels[fd]) == channels && MovedGone(gone, fd, channels[fd]) == gone
    ensures MovedDue(due, fd, channels[fd]) == due
  {
    Unchanged(channels, fd);
    FlagChanged(channels, due, gone, fd, channels[fd]);
  }

  lemma RemoveWriteKeeps(c: Channel)
    requires LifeInv(c) && c.active && c.pipe.pendings == []
    ensures LifeInv(RemoveWrite(c))
  {
    hide Inv, PhaseOf, Calm;
  }

  lemma MovedHas(channels: map<Fd, Channel>, gone: map<Fd, Channel>, fd: Fd, c: Channel)
    requires fd !in gone || c.closed
    ensures fd in Moved(channels, fd, c) <==> !c.closed
    ensures !c.closed ==> Moved(channels, fd, c)[fd] == c && fd !in MovedGone(gone, fd, c)
    ensures c.closed ==> fd in MovedGone(gone, fd, c) && MovedGone(gone, fd, c)[fd] == c
  {
  }

  lemma Absent<K, V>(m: map<K, V>, k: K)
    requires k !in m
    ensures m - {k} == m
  {
  }

  lemma Unchanged<K, V>(m: map<K, V>, k: K)
    requires k in m
    ensures m[k := m[k]] == m
  {
  }

  lemma Overwrite<K, V>(m: map<K, V>, k: K, a: V, b: V)
    ensures m[k := a][k := b] == m[k := b]
  {
  }
}
