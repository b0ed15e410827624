/** The Channel, PollPoller and EPollPoller classes, proved against PollerModel. */
module PollerClasses {
  import opened PollerModel

  const READ_EVENT: Mask := 3    // POLLIN | POLLPRI
  const WRITE_EVENT: Mask := 4   // POLLOUT

  class Channel {
    const fd: nat
    var events: Mask
    var revents: int
    var index: int

    constructor (fd: nat)
      ensures this.fd == fd && events == 0 && revents == 0 && index == K_NEW
    {
      this.fd, events, revents, index := fd, 0, 0, K_NEW;
    }

    predicate IsNoneEvent() reads this`events { events == 0 }
    predicate IsReading() reads this`events { HasSome(events, READ_EVENT) }
    predicate IsWriting() reads this`events { HasSome(events, WRITE_EVENT) }

    /** The mask part of each setter; update() follows, and belongs to the poller. */
    method EnableReading()
      modifies this`events
      ensures Covers(events, READ_EVENT) && SameBut(events, old(events), READ_EVENT)
      ensures IsReading() && IsWriting() == old(IsWriting())
    { events := events | READ_EVENT; }

    method DisableReading()
      modifies this`events
      ensures SameBut(events, old(events), READ_EVENT)
      ensures !IsReading() && IsWriting() == old(IsWriting())
    {
      Cleared(events, READ_EVENT, WRITE_EVENT);
      hide SameBut, HasSome, Without;
      events := Without(events, READ_EVENT);
    }

    method EnableWriting()
      modifies this`events
      ensures Covers(events, WRITE_EVENT) && SameBut(events, old(events), WRITE_EVENT)
      ensures IsWriting() && IsReading() == old(IsReading()) && !IsNoneEvent()
    { events := events | WRITE_EVENT; }

    method DisableWriting()
      modifies this`events
      ensures SameBut(events, old(events), WRITE_EVENT)
      ensures !IsWriting() && IsReading() == old(IsReading())
    {
      Cleared(events, WRITE_EVENT, READ_EVENT);
      hide SameBut, HasSome, Without;
      events := Without(events, WRITE_EVENT);
    }

    method DisableAll()
      modifies this`events
      ensures !IsReading() && !IsWriting() && IsNoneEvent()
    { events := 0; }
  }

  predicate IsSome(events: Mask) { events != 0 }

  predicate HasSome(events: Mask, bits: Mask) { IsSome(events & bits) }

  function Without(events: Mask, bits: Mask): Mask { events & !bits }

  /** Every bit of the one mask is in the other. */
  predicate Covers(events: Mask, bits: Mask) { events & bits == bits }

  /** The masks differ in these bits at most. */
  predicate SameBut(events: Mask, before: Mask, bits: Mask) { events & !bits == before & !bits }

  lemma Cleared(events: Mask, bits: Mask, others: Mask)
    requires bits & others == 0
    ensures !HasSome(Without(events, bits), bits)
    ensures HasSome(Without(events, bits), others) == HasSome(events, others)
    ensures SameBut(Without(events, bits), events, bits)
  {
    NoneLeft(events, bits);
    OthersLeft(events, bits, others);
    RestLeft(events, bits);
    hide HasSome, Without, SameBut;
  }

  lemma NoneLeft(events: Mask, bits: Mask)
    ensures !HasSome(Without(events, bits), bits)
  {}

  lemma OthersLeft(events: Mask, bits: Mask, others: Mask)
    requires bits & others == 0
    ensures HasSome(Without(events, bits), others) == HasSome(events, others)
  {
    SameUnder(events, bits, others);
    hide IsSome;
  }

  lemma SameUnder(events: Mask, bits: Mask, others: Mask)
    requires bits & others == 0
    ensures Without(events, bits) & others == events & others
  {}

  lemma RestLeft(events: Mask, bits: Mask)
    ensures SameBut(Without(events, bits), events, bits)
  {}

  class PollPoller {
    var pollfds: seq<PollFd>
    var channels: map<nat, Channel>
    ghost const all: set<Channel>

    ghost function Abs(): Poll<Channel>
      reads this, all
    {
      Poll(map c | c in all :: Chan(c.fd, c.events, c.index), channels, pollfds)
    }

    ghost predicate Ok()
      reads this, all
    {
      PollInv(Abs())
    }

    constructor (ghost all: set<Channel>)
      requires forall c | c in all :: c.index == K_NEW
      ensures Ok() && this.all == all && channels == map[] && pollfds == []
    {
      pollfds, channels := [], map[];
      this.all := all;
    }

    method UpdateChannel(channel: Channel)
      requires channel in all && PollUpdateAsserts(Abs(), channel)
      modifies this, channel`index
      ensures Abs() == PollUpdateChannel(old(Abs()), channel)
    {
      if channel.index < 0 {
        var pfd := PollFd(channel.fd, channel.events);
        pollfds := pollfds + [pfd];
        channel.index := |pollfds| - 1;
        channels := channels[channel.fd := channel];
      } else {
        assert channels[channel.fd] == channel;
        var idx := channel.index;
        var pfd := pollfds[idx].(events := channel.events);
        if channel.events == 0 {
          pfd := pfd.(fd := Negated(channel.fd));
        }
        pollfds := pollfds[idx := pfd];
      }
    }

    /** Channel::enableReading and its like, by the mask they leave: assign it and update. */
    method SetEvents(channel: Channel, events: Mask)
      requires Ok() && channel in all && PollAllows(Abs(), Update(channel, events))
      modifies this, channel`index, channel`events
      ensures Ok() && Abs() == PollDo(old(Abs()), Update(channel, events))
    {
      hide PollInv, PollUpdateChannel, PollUpdateAsserts;
      ghost var before := Abs();
      PollDoKeepsInv(before, Update(channel, events));
      AssertsIgnoreMask(before, channel, events);
      channel.events := events;
      assert Abs() == before.(chans := PollerModel.SetEvents(before.chans, channel, events));
      UpdateChannel(channel);
    }

    static lemma AssertsIgnoreMask(s: Poll<Channel>, c: Channel, events: Mask)
      requires c in s.chans && PollUpdateAsserts(s, c)
      ensures PollUpdateAsserts(s.(chans := PollerModel.SetEvents(s.chans, c, events)), c)
    {}

    method RemoveChannel(channel: Channel)
      requires Ok() && channel in all && PollAllows(Abs(), Remove(channel))
      modifies this, all`index
      ensures Ok() && Abs() == PollDo(old(Abs()), Remove(channel))
    {
      hide PollInv;
      ghost var before := Abs();
      PollDoKeepsInv(before, Remove(channel));
      var idx := channel.index;
      channels := channels - {channel.fd};
      if idx == |pollfds| - 1 {
        pollfds := pollfds[..|pollfds| - 1];
        assert Abs() == PollDo(before, Remove(channel));
      } else {
        LastStays(before, channel);
        var channelAtEnd := pollfds[|pollfds| - 1].fd;
        pollfds := pollfds[idx := pollfds[|pollfds| - 1]][|pollfds| - 1 := pollfds[idx]];
        if channelAtEnd < 0 {
          channelAtEnd := -channelAtEnd - 1;
        }
        ghost var last := LastChannel(before);
        assert channels[channelAtEnd] == last;
        channels[channelAtEnd].index := idx;
        pollfds := pollfds[..|pollfds| - 1];
        assert Abs().chans == SetIndex(before.chans, last, idx);
      }
    }

    static lemma LastStays(s: Poll<Channel>, c: Channel)
      requires PollInv(s) && PollAllows(s, Remove(c)) && s.chans[c].index != |s.slots| - 1
      ensures s.slots != [] && Decode(s.slots[|s.slots| - 1].fd) in s.reg - {s.chans[c].fd}
      ensures LastChannel(s) in s.chans
    {}

    /** Given what poll(2) wrote into the slots: it reports nothing for a slot it was told to ignore. */
    method FillActiveChannels(numEvents: nat, revents: seq<int>) returns (active: seq<Channel>)
      requires Ok() && |revents| == |pollfds| && numEvents == Count(revents)
      requires forall i | 0 <= i < |revents| && revents[i] > 0 :: pollfds[i].fd >= 0
      modifies all`revents
      ensures active == Reported(channels, pollfds, revents, |revents|) && |active| == numEvents
      ensures forall i | 0 <= i < |revents| && revents[i] > 0 ::
                pollfds[i].fd in channels && channels[pollfds[i].fd].revents == revents[i]
    {
      hide PollInv, Ok, Abs, Reported, Count;
      Watched();
      CountOfNone(revents);
      ReportedOfNone(channels, pollfds, revents);
      active := [];
      var left := numEvents;
      var i := 0;
      while i < |pollfds| && left > 0
        invariant i <= |pollfds| && left == Count(revents[i..])
        invariant active == Reported(channels, pollfds, revents, i) && |active| + left == numEvents
        invariant forall j | 0 <= j < i && revents[j] > 0 :: channels[pollfds[j].fd].revents == revents[j]
      {
        CountNext(revents, i);
        ReportedNext(channels, pollfds, revents, i);
        if revents[i] > 0 {
          left := left - 1;
          var channel := channels[pollfds[i].fd];
          assert channel.fd == pollfds[i].fd;
          channel.revents := revents[i];
          active := active + [channel];
        }
        i := i + 1;
      }
      CountOfNone(revents);
      NothingLeft(revents, i);
      ReportedNoMore(channels, pollfds, revents, i, |revents|);
    }

    lemma Watched()
      requires Ok()
      ensures forall i | 0 <= i < |pollfds| && pollfds[i].fd >= 0 ::
                && pollfds[i].fd in channels && channels[pollfds[i].fd] in all
                && channels[pollfds[i].fd].fd == pollfds[i].fd
      ensures forall i, j | 0 <= i < j < |pollfds| && pollfds[i].fd >= 0 :: pollfds[i].fd != pollfds[j].fd
    {
      WatchedSlots(Abs());
    }

    /** Each watched slot names a registered channel of its own. */
    static lemma WatchedSlots(s: Poll<Channel>)
      requires PollInv(s)
      ensures forall i | 0 <= i < |s.slots| && s.slots[i].fd >= 0 ::
                && s.slots[i].fd in s.reg && s.reg[s.slots[i].fd] in s.chans
                && s.chans[s.reg[s.slots[i].fd]].fd == s.slots[i].fd
      ensures forall i, j | 0 <= i < j < |s.slots| && s.slots[i].fd >= 0 :: s.slots[i].fd != s.slots[j].fd
    {
      SlotsAndChannelsAreOneToOne(s);
    }
  }

  /** The channels reported by the first n slots, in slot order. */
  function Reported(channels: map<nat, Channel>, slots: seq<PollFd>, revents: seq<int>, n: nat): seq<Channel>
    requires n <= |revents| == |slots|
  {
    if n == 0 then []
    else Reported(channels, slots, revents, n - 1) +
         (if revents[n - 1] > 0 && slots[n - 1].fd in channels then [channels[slots[n - 1].fd]] else [])
  }

  lemma ReportedOfNone(channels: map<nat, Channel>, slots: seq<PollFd>, revents: seq<int>)
    requires |revents| == |slots|
    ensures Reported(channels, slots, revents, 0) == []
  {}

  lemma ReportedNext(channels: map<nat, Channel>, slots: seq<PollFd>, revents: seq<int>, i: nat)
    requires i < |revents| == |slots|
    ensures Reported(channels, slots, revents, i + 1)
            == Reported(channels, slots, revents, i) +
               (if revents[i] > 0 && slots[i].fd in channels then [channels[slots[i].fd]] else [])
  {}

  lemma {:induction false} ReportedNoMore(channels: map<nat, Channel>, slots: seq<PollFd>, revents: seq<int>,
                                          i: nat, n: nat)
    requires i <= n <= |revents| == |slots| && forall j | i <= j < n :: revents[j] <= 0
    ensures Reported(channels, slots, revents, n) == Reported(channels, slots, revents, i)
  {
    if i < n { ReportedNoMore(channels, slots, revents, i, n - 1); }
  }

  function Count(revents: seq<int>): nat {
    if revents == [] then 0 else (if revents[0] > 0 then 1 else 0) + Count(revents[1..])
  }

  lemma CountOfNone(revents: seq<int>)
    ensures revents[0..] == revents && revents[|revents|..] == [] && Count([]) == 0
  {}

  lemma CountNext(revents: seq<int>, i: nat)
    requires i < |revents|
    ensures Count(revents[i..]) == (if revents[i] > 0 then 1 else 0) + Count(revents[i + 1..])
  {
    assert revents[i..][1..] == revents[i + 1..];
  }

  lemma {:induction false} NothingLeft(revents: seq<int>, i: nat)
    requires i <= |revents| && Count(revents[i..]) == 0
    ensures forall j | i <= j < |revents| :: revents[j] <= 0
    decreases |revents| - i
  {
    if i < |revents| {
      assert revents[i..][1..] == revents[i + 1..];
      NothingLeft(revents, i + 1);
    }
  }

  class EPollPoller {
    var channels: map<nat, Channel>
    var eventsSize: nat
    var kernel: map<nat, Interest<Channel>>   // the interest set behind M_epollfd
    ghost const all: set<Channel>

    ghost function Abs(): Epoll<Channel>
      reads this, all
    {
      Epoll(map c | c in all :: Chan(c.fd, c.events, c.index), channels, kernel)
    }

    ghost predicate Ok()
      reads this, all
    {
      EpollInv(Abs()) && eventsSize > 0
    }

    constructor (ghost all: set<Channel>)
      requires forall c | c in all :: c.index == K_NEW
      ensures Ok() && this.all == all && channels == map[] && kernel == map[]
    {
      channels, kernel, eventsSize := map[], map[], 16;
      this.all := all;
    }

    /** epoll_ctl; the log and the abort on failure are left out, as it does not fail. */
    method Ctl(operation: PollerModel.Ctl, channel: Channel)
      requires CtlSucceeds(kernel, operation, channel.fd)
      modifies this`kernel
      ensures kernel == CtlEffect(old(kernel), operation, channel.fd, Interest(channel.events, channel))
    {
      match operation
      case Del => kernel := kernel - {channel.fd};
      case _ => kernel := kernel[channel.fd := Interest(channel.events, channel)];
    }

    method UpdateChannel(channel: Channel)
      requires channel in all && EpollUpdateAsserts(Abs(), channel)
      requires CtlSucceeds(kernel, UpdateCtl(Chan(channel.fd, channel.events, channel.index)), channel.fd)
      modifies this, channel`index
      ensures Abs() == EpollUpdateChannel(old(Abs()), channel) && eventsSize == old(eventsSize)
    {
      var index := channel.index;
      if index == K_NEW || index == K_DELETED {
        if index == K_NEW {
          channels := channels[channel.fd := channel];
        }
        channel.index := K_ADDED;
        Ctl(Add, channel);
      } else if channel.events == 0 {
        Ctl(Del, channel);
        channel.index := K_DELETED;
      } else {
        Ctl(Mod, channel);
      }
    }

    method SetEvents(channel: Channel, events: Mask)
      requires Ok() && channel in all && EpollAllows(Abs(), Update(channel, events))
      modifies this, channel`index, channel`events
      ensures Ok() && Abs() == EpollDo(old(Abs()), Update(channel, events))
    {
      hide EpollInv, EpollUpdateChannel, EpollUpdateAsserts;
      ghost var before := Abs();
      EpollDoKeepsInv(before, Update(channel, events));
      AssertsIgnoreMask(before, channel, events);
      channel.events := events;
      assert Abs() == before.(chans := PollerModel.SetEvents(before.chans, channel, events));
      UpdateChannel(channel);
    }

    static lemma AssertsIgnoreMask(s: Epoll<Channel>, c: Channel, events: Mask)
      requires c in s.chans && EpollUpdateAsserts(s, c)
      ensures EpollUpdateAsserts(s.(chans := PollerModel.SetEvents(s.chans, c, events)), c)
    {}

    method RemoveChannel(channel: Channel)
      requires Ok() && channel in all && EpollAllows(Abs(), Remove(channel))
      modifies this, channel`index
      ensures Ok() && Abs() == EpollDo(old(Abs()), Remove(channel))
    {
      hide EpollInv;
      ghost var before := Abs();
      EpollDoKeepsInv(before, Remove(channel));
      var index := channel.index;
      channels := channels - {channel.fd};
      if index == K_ADDED {
        Ctl(Del, channel);
      }
      channel.index := K_NEW;
      assert Abs().chans == SetIndex(before.chans, channel, K_NEW);
      assert Abs() == EpollDo(before, Remove(channel));
    }

    /** Given what epoll_wait returned: distinct members of the interest set, no more than asked for. */
    method FillActiveChannels(ready: seq<(nat, int)>) returns (active: seq<Channel>)
      requires Ok() && |ready| <= eventsSize && forall r | r in ready :: r.0 in kernel
      requires forall i, j | 0 <= i < j < |ready| :: ready[i].0 != ready[j].0
      modifies this`eventsSize, all`revents
      ensures |active| == |ready| && |ready| < eventsSize && old(eventsSize) <= eventsSize
      ensures forall i | 0 <= i < |ready| ::
                ready[i].0 in channels && channels[ready[i].0] == active[i] && active[i].revents == ready[i].1
    {
      active := [];
      for i := 0 to |ready|
        invariant |active| == i && eventsSize == old(eventsSize)
        invariant forall j | 0 <= j < i :: ready[j].0 in channels && channels[ready[j].0] == active[j]
                                           && active[j].fd == ready[j].0 && active[j].revents == ready[j].1
      {
        assert ready[i] in ready;
        InterestIsRegistered(Abs(), ready[i].0);
        var channel := kernel[ready[i].0].c;
        assert channel.fd == ready[i].0;
        channel.revents := ready[i].1;
        active := active + [channel];
      }
      if |ready| == eventsSize {
        eventsSize := eventsSize * 2;
      }
    }

    static lemma InterestIsRegistered(s: Epoll<Channel>, fd: nat)
      requires EpollInv(s) && fd in s.kernel
      ensures fd in s.reg && s.kernel[fd].c == s.reg[fd] && s.reg[fd] in s.chans && s.chans[s.reg[fd]].fd == fd
    {}
  }
}
