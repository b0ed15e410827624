/**
 * The two pollers as values: src/PollPoller.cpp, src/EPollPoller.cpp, and the part of
 * include/Channel.h they share. C stands for channel objects.
 */
module PollerModel {

  /** Bits of poll(2): POLLIN | POLLPRI is 3 and POLLOUT is 4. */
  type Mask = bv16

  datatype Chan = Chan(fd: nat, events: Mask, index: int)

  /** What the program's user does to a channel: set its mask and update, or remove it. */
  datatype Op<C> = Update(c: C, events: Mask) | Remove(c: C)

  function SetEvents<C>(chans: map<C, Chan>, c: C, events: Mask): map<C, Chan>
    requires c in chans
  {
    chans[c := chans[c].(events := events)]
  }

  function SetIndex<C>(chans: map<C, Chan>, c: C, index: int): map<C, Chan>
    requires c in chans
  {
    chans[c := chans[c].(index := index)]
  }

  // ---------------------------------------------------------------------
  // PollPoller: a dense array with swap-remove
  // ---------------------------------------------------------------------

  datatype PollFd = PollFd(fd: int, events: Mask)

  datatype Poll<C> = Poll(chans: map<C, Chan>, reg: map<nat, C>, slots: seq<PollFd>)

  /** A slot holds fd, or its negation to have poll ignore it. */
  function Negated(fd: nat): int { -1 - fd }

  function Decode(slotFd: int): int { if slotFd < 0 then -slotFd - 1 else slotFd }

  /** The assertions of updateChannel. */
  predicate PollUpdateAsserts<C(==)>(s: Poll<C>, c: C)
    requires c in s.chans
  {
    var ch := s.chans[c];
    if ch.index < 0 then ch.fd !in s.reg
    else
      && ch.fd in s.reg && s.reg[ch.fd] == c
      && ch.index < |s.slots|
      && (s.slots[ch.index].fd == ch.fd || s.slots[ch.index].fd == Negated(ch.fd))
  }

  /** updateChannel as written: an existing slot is never made positive again. */
  function PollUpdateChannel<C>(s: Poll<C>, c: C): Poll<C>
    requires c in s.chans && PollUpdateAsserts(s, c)
  {
    var ch := s.chans[c];
    if ch.index < 0 then
      Poll(SetIndex(s.chans, c, |s.slots|), s.reg[ch.fd := c], s.slots + [PollFd(ch.fd, ch.events)])
    else
      var pfd := s.slots[ch.index].(events := ch.events);
      s.(slots := s.slots[ch.index := if ch.events == 0 then pfd.(fd := Negated(ch.fd)) else pfd])
  }

  /** The assertions of removeChannel. */
  predicate PollRemoveAsserts<C(==)>(s: Poll<C>, c: C)
    requires c in s.chans
  {
    var ch := s.chans[c];
    && ch.fd in s.reg && s.reg[ch.fd] == c
    && ch.events == 0
    && 0 <= ch.index < |s.slots|
    && s.slots[ch.index].fd == Negated(ch.fd) && s.slots[ch.index].events == ch.events
  }

  /** The channel whose slot is last, which swap-remove moves. */
  function LastChannel<C>(s: Poll<C>): C
    requires s.slots != [] && Decode(s.slots[|s.slots| - 1].fd) in s.reg
  {
    s.reg[Decode(s.slots[|s.slots| - 1].fd)]
  }

  /** removeChannel as written: the removed channel keeps its index. */
  function PollRemoveChannel<C>(s: Poll<C>, c: C): Poll<C>
    requires PollInv(s) && c in s.chans && PollRemoveAsserts(s, c)
  {
    var idx, last := s.chans[c].index, |s.slots| - 1;
    var reg := s.reg - {s.chans[c].fd};
    if idx == last then Poll(s.chans, reg, s.slots[..last])
    else Poll(SetIndex(s.chans, LastChannel(s), idx), reg, s.slots[idx := s.slots[last]][..last])
  }

  /** M_channels and M_pollfds index each other: a registered channel's index is the one slot of its fd. */
  ghost predicate PollInv<C>(s: Poll<C>) { ChannelsHaveSlots(s) && SlotsHaveChannels(s) }

  ghost predicate ChannelsHaveSlots<C>(s: Poll<C>) {
    forall fd | fd in s.reg ::
      && s.reg[fd] in s.chans
      && var ch := s.chans[s.reg[fd]];
         && ch.fd == fd && 0 <= ch.index < |s.slots|
         && Decode(s.slots[ch.index].fd) == fd && s.slots[ch.index].events == ch.events
  }

  ghost predicate SlotsHaveChannels<C>(s: Poll<C>) {
    forall i | 0 <= i < |s.slots| ::
      && Decode(s.slots[i].fd) in s.reg
      && s.reg[Decode(s.slots[i].fd)] in s.chans
      && s.chans[s.reg[Decode(s.slots[i].fd)]].index == i
  }

  predicate PollAllows<C(==)>(s: Poll<C>, op: Op<C>) {
    && op.c in s.chans
    && match op
       case Update(c, events) => PollUpdateAsserts(s, c)
       case Remove(c) => PollRemoveAsserts(s, c)
  }

  function PollDo<C>(s: Poll<C>, op: Op<C>): Poll<C>
    requires PollInv(s) && PollAllows(s, op)
  {
    match op
    case Update(c, events) => PollUpdateChannel(s.(chans := SetEvents(s.chans, c, events)), c)
    case Remove(c) => PollRemoveChannel(s, c)
  }

  predicate Registered<C(==)>(chans: map<C, Chan>, reg: map<nat, C>, c: C) {
    c in chans && chans[c].fd in reg && reg[chans[c].fd] == c
  }

  /** Of all the assertions only those about the caller's own sequence of calls can fail. */
  lemma PollAssertsExactly<C>(s: Poll<C>, c: C)
    requires PollInv(s) && c in s.chans
    ensures PollUpdateAsserts(s, c)
            <==> if s.chans[c].index < 0 then s.chans[c].fd !in s.reg else Registered(s.chans, s.reg, c)
    ensures PollRemoveAsserts(s, c)
            <==> (Registered(s.chans, s.reg, c) && s.chans[c].events == 0 && s.slots[s.chans[c].index].fd < 0)
  {}

  lemma PollUpdateKeepsInv<C>(s: Poll<C>, c: C, events: Mask)
    requires PollInv(s) && c in s.chans && PollUpdateAsserts(s, c)
    ensures PollInv(PollDo(s, Update(c, events)))
  {
    UpdateKeepsChannels(s, c, events);
    UpdateKeepsSlots(s, c, events);
    hide ChannelsHaveSlots, SlotsHaveChannels, PollUpdateAsserts;
  }

  lemma UpdateKeepsChannels<C>(s: Poll<C>, c: C, events: Mask)
    requires PollInv(s) && c in s.chans && PollUpdateAsserts(s, c)
    ensures ChannelsHaveSlots(PollDo(s, Update(c, events)))
  {
    if s.chans[c].index >= 0 {
      forall fd | fd in s.reg && s.reg[fd] != c
        ensures s.chans[s.reg[fd]].index != s.chans[c].index
      {}
    }
  }

  lemma UpdateKeepsSlots<C>(s: Poll<C>, c: C, events: Mask)
    requires PollInv(s) && c in s.chans && PollUpdateAsserts(s, c)
    ensures SlotsHaveChannels(PollDo(s, Update(c, events)))
  {}

  /** Swap-remove re-points exactly the moved channel, whether or not its slot is negated. */
  lemma PollRemoveKeepsInv<C>(s: Poll<C>, c: C)
    requires PollInv(s) && c in s.chans && PollRemoveAsserts(s, c)
    ensures PollInv(PollDo(s, Remove(c)))
    ensures forall x | x in s.chans && x != LastChannel(s) :: PollDo(s, Remove(c)).chans[x] == s.chans[x]
  {
    RemoveKeepsChannels(s, c);
    RemoveKeepsSlots(s, c);
    hide ChannelsHaveSlots, SlotsHaveChannels;
  }

  lemma RemoveKeepsChannels<C>(s: Poll<C>, c: C)
    requires PollInv(s) && c in s.chans && PollRemoveAsserts(s, c)
    ensures ChannelsHaveSlots(PollDo(s, Remove(c)))
  {
    var last := |s.slots| - 1;
    LastIsMoved(s, c);
    forall fd | fd in s.reg && fd != s.chans[c].fd && s.reg[fd] != LastChannel(s)
      ensures s.chans[s.reg[fd]].index != s.chans[c].index && s.chans[s.reg[fd]].index != last
    {}
  }

  lemma RemoveKeepsSlots<C>(s: Poll<C>, c: C)
    requires PollInv(s) && c in s.chans && PollRemoveAsserts(s, c)
    ensures SlotsHaveChannels(PollDo(s, Remove(c)))
  {
    LastIsMoved(s, c);
    forall i | 0 <= i < |s.slots| && i != s.chans[c].index
      ensures Decode(s.slots[i].fd) != s.chans[c].fd
    {}
    forall i | 0 <= i < |s.slots| - 1
      ensures Owner(s, i) != LastChannel(s)
    {}
    hide ChannelsHaveSlots;
  }

  /** The last slot is that of the channel moved, which is the one removed only if it was last. */
  lemma LastIsMoved<C>(s: Poll<C>, c: C)
    requires PollInv(s) && c in s.chans && PollRemoveAsserts(s, c)
    ensures Decode(s.slots[|s.slots| - 1].fd) in s.reg && LastChannel(s) in s.chans
    ensures s.chans[LastChannel(s)].index == |s.slots| - 1
    ensures Decode(s.slots[s.chans[c].index].fd) == s.chans[c].fd
    ensures LastChannel(s) == c <==> s.chans[c].index == |s.slots| - 1
  {}

  lemma PollDoKeepsInv<C>(s: Poll<C>, op: Op<C>)
    requires PollInv(s) && PollAllows(s, op)
    ensures PollInv(PollDo(s, op))
  {
    match op
    case Update(c, events) => PollUpdateKeepsInv(s, c, events);
    case Remove(c) => PollRemoveKeepsInv(s, c);
  }

  function Owner<C>(s: Poll<C>, i: nat): C
    requires i < |s.slots| && Decode(s.slots[i].fd) in s.reg
  {
    s.reg[Decode(s.slots[i].fd)]
  }

  predicate OwnsSlot<C(==)>(s: Poll<C>, i: nat, c: C)
    requires i < |s.slots| && c in s.chans
  {
    && Registered(s.chans, s.reg, c) && s.chans[c].index == i && s.slots[i].events == s.chans[c].events
    && (s.slots[i].fd == s.chans[c].fd || s.slots[i].fd == Negated(s.chans[c].fd))
  }

  /** The invariant is a bijection, and no two slots decode to one fd. */
  lemma SlotsAndChannelsAreOneToOne<C>(s: Poll<C>)
    requires PollInv(s)
    ensures |s.slots| == |s.reg|
    ensures forall i, j | 0 <= i < j < |s.slots| :: Decode(s.slots[i].fd) != Decode(s.slots[j].fd)
    ensures forall i | 0 <= i < |s.slots| ::
              Decode(s.slots[i].fd) in s.reg && Owner(s, i) in s.chans && OwnsSlot(s, i, Owner(s, i))
    ensures forall c | Registered(s.chans, s.reg, c) ::
              0 <= s.chans[c].index < |s.slots| && OwnsSlot(s, s.chans[c].index, c)
  {
    var fds := set i | 0 <= i < |s.slots| :: Decode(s.slots[i].fd);
    forall i, j | 0 <= i < j < |s.slots|
      ensures Decode(s.slots[i].fd) != Decode(s.slots[j].fd)
    {}
    CountSlots(s.slots);
    assert fds == s.reg.Keys;
  }

  lemma {:induction false} CountSlots(slots: seq<PollFd>)
    requires forall i, j | 0 <= i < j < |slots| :: Decode(slots[i].fd) != Decode(slots[j].fd)
    ensures |set i | 0 <= i < |slots| :: Decode(slots[i].fd)| == |slots|
  {
    if slots != [] {
      var n := |slots| - 1;
      CountSlots(slots[..n]);
      var before := set i | 0 <= i < n :: Decode(slots[..n][i].fd);
      var all := set i | 0 <= i < |slots| :: Decode(slots[i].fd);
      assert all == before + {Decode(slots[n].fd)};
    }
  }

  // ---------------------------------------------------------------------
  // EPollPoller: three-state index against the kernel's interest set
  // ---------------------------------------------------------------------

  const K_NEW := -1
  const K_ADDED := 1
  const K_DELETED := 2

  datatype Ctl = Add | Mod | Del

  /** The kernel's record of a descriptor: its mask and data.ptr. */
  datatype Interest<C> = Interest(events: Mask, c: C)

  datatype Epoll<C> = Epoll(chans: map<C, Chan>, reg: map<nat, C>, kernel: map<nat, Interest<C>>)

  /** epoll_ctl(2) on an open descriptor fails with EEXIST or ENOENT, and otherwise succeeds. */
  predicate CtlSucceeds<C>(kernel: map<nat, Interest<C>>, ctl: Ctl, fd: nat) {
    if ctl.Add? then fd !in kernel else fd in kernel
  }

  function CtlEffect<C>(kernel: map<nat, Interest<C>>, ctl: Ctl, fd: nat, interest: Interest<C>)
    : map<nat, Interest<C>>
  {
    if !CtlSucceeds(kernel, ctl, fd) then kernel
    else if ctl.Del? then kernel - {fd}
    else kernel[fd := interest]
  }

  /** The operation updateChannel asks of the kernel for a channel with this index and mask. */
  function UpdateCtl(ch: Chan): Ctl {
    if ch.index == K_NEW || ch.index == K_DELETED then Add else if ch.events == 0 then Del else Mod
  }

  predicate EpollUpdateAsserts<C(==)>(s: Epoll<C>, c: C)
    requires c in s.chans
  {
    var ch := s.chans[c];
    if ch.index == K_NEW then ch.fd !in s.reg
    else if ch.index == K_DELETED then ch.fd in s.reg && s.reg[ch.fd] == c
    else ch.fd in s.reg && ch.index == K_ADDED
  }

  function EpollUpdateChannel<C>(s: Epoll<C>, c: C): Epoll<C>
    requires c in s.chans && EpollUpdateAsserts(s, c)
  {
    var ch := s.chans[c];
    var ctl := UpdateCtl(ch);
    Epoll(if ctl.Add? then SetIndex(s.chans, c, K_ADDED)
          else if ctl.Del? then SetIndex(s.chans, c, K_DELETED)
          else s.chans,
          if ch.index == K_NEW then s.reg[ch.fd := c] else s.reg,
          CtlEffect(s.kernel, ctl, ch.fd, Interest(ch.events, c)))
  }

  predicate EpollRemoveAsserts<C(==)>(s: Epoll<C>, c: C)
    requires c in s.chans
  {
    var ch := s.chans[c];
    && ch.fd in s.reg && s.reg[ch.fd] == c && ch.events == 0
    && (ch.index == K_ADDED || ch.index == K_DELETED)
  }

  function EpollRemoveChannel<C>(s: Epoll<C>, c: C): Epoll<C>
    requires c in s.chans && EpollRemoveAsserts(s, c)
  {
    var ch := s.chans[c];
    Epoll(SetIndex(s.chans, c, K_NEW), s.reg - {ch.fd},
          if ch.index == K_ADDED then CtlEffect(s.kernel, Del, ch.fd, Interest(ch.events, c)) else s.kernel)
  }

  /** The kernel holds exactly the registered channels with index kAdded, with their masks. */
  ghost predicate EpollInv<C>(s: Epoll<C>) { MappedFit(s) && OthersAreNew(s) && KernelHoldsAdded(s) }

  ghost predicate MappedFit<C>(s: Epoll<C>) {
    forall fd | fd in s.reg ::
      && s.reg[fd] in s.chans
      && var ch := s.chans[s.reg[fd]];
         && ch.fd == fd && (ch.index == K_ADDED || ch.index == K_DELETED)
         && (ch.index == K_DELETED ==> ch.events == 0)
  }

  ghost predicate OthersAreNew<C>(s: Epoll<C>) {
    forall c | c in s.chans && !Registered(s.chans, s.reg, c) :: s.chans[c].index == K_NEW
  }

  ghost predicate KernelHoldsAdded<C>(s: Epoll<C>)
    requires MappedFit(s)
  {
    && (forall fd :: fd in s.kernel <==> fd in s.reg && s.chans[s.reg[fd]].index == K_ADDED)
    && (forall fd | fd in s.kernel :: s.kernel[fd] == Interest(s.chans[s.reg[fd]].events, s.reg[fd]))
  }

  predicate EpollAllows<C(==)>(s: Epoll<C>, op: Op<C>) {
    && op.c in s.chans
    && match op
       case Update(c, events) => EpollUpdateAsserts(s, c)
       case Remove(c) => EpollRemoveAsserts(s, c)
  }

  function EpollDo<C>(s: Epoll<C>, op: Op<C>): Epoll<C>
    requires EpollAllows(s, op)
  {
    match op
    case Update(c, events) => EpollUpdateChannel(s.(chans := SetEvents(s.chans, c, events)), c)
    case Remove(c) => EpollRemoveChannel(s, c)
  }

  /** The epoll_ctl call of an operation, if it makes one. */
  predicate KernelAccepts<C(==)>(s: Epoll<C>, op: Op<C>)
    requires op.c in s.chans
  {
    var ch := s.chans[op.c];
    match op
    case Update(_, events) => CtlSucceeds(s.kernel, UpdateCtl(ch.(events := events)), ch.fd)
    case Remove(_) => ch.index == K_ADDED ==> CtlSucceeds(s.kernel, Del, ch.fd)
  }

  lemma EpollUpdateKeepsInv<C>(s: Epoll<C>, c: C, events: Mask)
    requires EpollInv(s) && c in s.chans && EpollUpdateAsserts(s, c)
    ensures EpollInv(EpollDo(s, Update(c, events))) && KernelAccepts(s, Update(c, events))
  {
    hide EpollDo, EpollUpdateAsserts, KernelAccepts, Registered;
    EpollUpdateFrame(s, c, events);
    EpollUpdateTarget(s, c, events);
    EpollUpdateOthers(s, c, events);
    var t := EpollDo(s, Update(c, events));
    assert MappedFit(t) by { hide OthersAreNew, KernelHoldsAdded; }
    assert OthersAreNew(t) by { hide MappedFit, KernelHoldsAdded; }
    assert KernelHoldsAdded(t) by { hide OthersAreNew; }
    hide MappedFit, OthersAreNew, KernelHoldsAdded;
  }

  /** No other channel is registered or unregistered. */
  lemma EpollUpdateOthers<C>(s: Epoll<C>, c: C, events: Mask)
    requires EpollInv(s) && c in s.chans && EpollUpdateAsserts(s, c)
    ensures var t := EpollDo(s, Update(c, events));
            && Registered(t.chans, t.reg, c)
            && forall x | x in s.chans && x != c :: Registered(t.chans, t.reg, x) <==> Registered(s.chans, s.reg, x)
  {
    EpollUpdateFrame(s, c, events);
    EpollUpdateTarget(s, c, events);
    hide EpollInv, EpollDo, EpollUpdateAsserts;
  }

  /** Only the channel, its descriptor and its interest change. */
  lemma EpollUpdateFrame<C>(s: Epoll<C>, c: C, events: Mask)
    requires EpollInv(s) && c in s.chans && EpollUpdateAsserts(s, c)
    ensures s.chans[c].fd in s.reg ==> s.reg[s.chans[c].fd] == c
    ensures var t, fd := EpollDo(s, Update(c, events)), s.chans[c].fd;
            && t.chans.Keys == s.chans.Keys
            && (forall x | x in s.chans && x != c :: t.chans[x] == s.chans[x])
            && (forall f | f != fd :: (f in t.reg <==> f in s.reg) && (f in t.reg ==> t.reg[f] == s.reg[f] != c))
            && (forall f | f != fd ::
                  (f in t.kernel <==> f in s.kernel) && (f in t.kernel ==> t.kernel[f] == s.kernel[f]))
  {}

  /** And these become what the index says of them. */
  lemma EpollUpdateTarget<C>(s: Epoll<C>, c: C, events: Mask)
    requires EpollInv(s) && c in s.chans && EpollUpdateAsserts(s, c)
    ensures KernelAccepts(s, Update(c, events))
    ensures var t, fd := EpollDo(s, Update(c, events)), s.chans[c].fd;
            && fd in t.reg && t.reg[fd] == c && t.chans[c].fd == fd && t.chans[c].events == events
            && (t.chans[c].index == K_ADDED || (t.chans[c].index == K_DELETED && events == 0))
            && (fd in t.kernel <==> t.chans[c].index == K_ADDED)
            && (fd in t.kernel ==> t.kernel[fd] == Interest(events, c))
  {}

  lemma EpollRemoveKeepsInv<C>(s: Epoll<C>, c: C)
    requires EpollInv(s) && c in s.chans && EpollRemoveAsserts(s, c)
    ensures EpollInv(EpollDo(s, Remove(c))) && KernelAccepts(s, Remove(c))
  {
    var t := EpollDo(s, Remove(c));
    forall x | x in s.chans && x != c
      ensures t.chans[x] == s.chans[x] && (Registered(t.chans, t.reg, x) <==> Registered(s.chans, s.reg, x))
    {}
  }

  /** Every operation the assertions let through keeps the kernel in step, and the kernel never refuses one. */
  lemma EpollDoKeepsInv<C>(s: Epoll<C>, op: Op<C>)
    requires EpollInv(s) && EpollAllows(s, op)
    ensures EpollInv(EpollDo(s, op)) && KernelAccepts(s, op)
  {
    match op
    case Update(c, events) => EpollUpdateKeepsInv(s, c, events);
    case Remove(c) => EpollRemoveKeepsInv(s, c);
  }

  lemma EpollAssertsExactly<C>(s: Epoll<C>, c: C)
    requires EpollInv(s) && c in s.chans
    ensures EpollUpdateAsserts(s, c) <==> (Registered(s.chans, s.reg, c) || s.chans[c].fd !in s.reg)
    ensures EpollRemoveAsserts(s, c) <==> (Registered(s.chans, s.reg, c) && s.chans[c].events == 0)
  {}

  // ---------------------------------------------------------------------
  // The two against each other
  // ---------------------------------------------------------------------

  /** What callers see of a poller: each channel's descriptor and mask, and who is registered. */
  datatype View<C> = View(fds: map<C, nat>, masks: map<C, Mask>, reg: map<nat, C>)

  function ViewOf<C>(chans: map<C, Chan>, reg: map<nat, C>): View<C> {
    View(map c | c in chans :: chans[c].fd, map c | c in chans :: chans[c].events, reg)
  }

  function ViewDo<C>(v: View<C>, op: Op<C>): View<C>
    requires op.c in v.fds
  {
    match op
    case Update(c, events) => v.(masks := v.masks[c := events], reg := v.reg[v.fds[c] := c])
    case Remove(c) => v.(reg := v.reg - {v.fds[c]})
  }

  /** The descriptors the callers want watched, and for what. */
  function Wanted<C>(v: View<C>): map<nat, Mask> {
    map fd | fd in v.reg && v.reg[fd] in v.masks && v.masks[v.reg[fd]] != 0 :: v.masks[v.reg[fd]]
  }

  /** What epoll is asked to watch for. */
  function EpollInterest<C>(s: Epoll<C>): map<nat, Mask> {
    map fd | fd in s.kernel && s.kernel[fd].events != 0 :: s.kernel[fd].events
  }

  /** What poll(2) is asked to watch for: the slots it does not ignore, with a mask that is not empty. */
  ghost function PollInterest<C>(s: Poll<C>): map<nat, Mask>
    requires PollInv(s)
  {
    map fd | fd in s.reg && SlotOf(s, fd).fd >= 0 && SlotOf(s, fd).events != 0 :: SlotOf(s, fd).events
  }

  ghost function SlotOf<C>(s: Poll<C>, fd: nat): PollFd
    requires PollInv(s) && fd in s.reg
  {
    s.slots[s.chans[s.reg[fd]].index]
  }

  /** The registered descriptors that poll(2) ignores. */
  ghost function Ignored<C>(s: Poll<C>): set<nat>
    requires PollInv(s)
  {
    set fd | fd in s.reg && SlotOf(s, fd).fd < 0
  }

  lemma EpollImplementsView<C>(s: Epoll<C>, op: Op<C>)
    requires EpollInv(s) && EpollAllows(s, op)
    ensures ViewOf(EpollDo(s, op).chans, EpollDo(s, op).reg) == ViewDo(ViewOf(s.chans, s.reg), op)
  {
    match op
    case Update(c, events) => EpollUpdateView(s, c, events);
    case Remove(c) =>
  }

  lemma EpollUpdateView<C>(s: Epoll<C>, c: C, events: Mask)
    requires EpollInv(s) && EpollAllows(s, Update(c, events))
    ensures var t := EpollDo(s, Update(c, events));
            ViewOf(t.chans, t.reg) == ViewDo(ViewOf(s.chans, s.reg), Update(c, events))
  {
    EpollUpdateShape(s, c, events);
    UpdateView(s.chans, s.reg, c, events, EpollDo(s, Update(c, events)).chans[c].index);
    hide EpollInv, EpollDo, ViewOf;
  }

  lemma EpollUpdateShape<C>(s: Epoll<C>, c: C, events: Mask)
    requires EpollInv(s) && EpollAllows(s, Update(c, events))
    ensures var t := EpollDo(s, Update(c, events));
            && c in t.chans
            && t.chans == s.chans[c := Chan(s.chans[c].fd, events, t.chans[c].index)]
            && t.reg == s.reg[s.chans[c].fd := c]
  {
    EpollAssertsExactly(s, c);
    hide EpollInv, CtlEffect;
  }

  lemma UpdateView<C>(chans: map<C, Chan>, reg: map<nat, C>, c: C, events: Mask, index: int)
    requires c in chans
    ensures ViewOf(chans[c := Chan(chans[c].fd, events, index)], reg[chans[c].fd := c])
            == ViewDo(ViewOf(chans, reg), Update(c, events))
  {
    var us := chans[c := Chan(chans[c].fd, events, index)];
    assert ViewOf(us, reg).fds == ViewOf(chans, reg).fds;
    assert ViewOf(us, reg).masks == ViewOf(chans, reg).masks[c := events];
  }

  lemma EpollWatchesWanted<C>(s: Epoll<C>)
    requires EpollInv(s)
    ensures EpollInterest(s) == Wanted(ViewOf(s.chans, s.reg))
  {}

  lemma PollImplementsView<C>(s: Poll<C>, op: Op<C>)
    requires PollInv(s) && PollAllows(s, op)
    ensures ViewOf(PollDo(s, op).chans, PollDo(s, op).reg) == ViewDo(ViewOf(s.chans, s.reg), op)
  {
    hide ViewOf, ViewDo;
    match op
    case Update(c, events) =>
      PollUpdateShape(s, c, events);
      UpdateView(s.chans, s.reg, c, events, PollDo(s, op).chans[c].index);
    case Remove(c) =>
      PollRemoveShape(s, c);
      RemoveView(s.chans, PollDo(s, op).chans, s.reg, c);
  }

  lemma PollUpdateShape<C>(s: Poll<C>, c: C, events: Mask)
    requires PollInv(s) && PollAllows(s, Update(c, events))
    ensures var t := PollDo(s, Update(c, events));
            && c in t.chans
            && t.chans == s.chans[c := Chan(s.chans[c].fd, events, t.chans[c].index)]
            && t.reg == s.reg[s.chans[c].fd := c]
  {
    PollAssertsExactly(s, c);
    hide PollInv;
  }

  lemma PollRemoveShape<C>(s: Poll<C>, c: C)
    requires PollInv(s) && PollAllows(s, Remove(c))
    ensures var t := PollDo(s, Remove(c));
            && t.reg == s.reg - {s.chans[c].fd}
            && t.chans.Keys == s.chans.Keys
            && forall x | x in s.chans :: t.chans[x].fd == s.chans[x].fd && t.chans[x].events == s.chans[x].events
  {}

  lemma RemoveView<C>(chans: map<C, Chan>, after: map<C, Chan>, reg: map<nat, C>, c: C)
    requires c in chans && after.Keys == chans.Keys
    requires forall x | x in chans :: after[x].fd == chans[x].fd && after[x].events == chans[x].events
    ensures ViewOf(after, reg - {chans[c].fd}) == ViewDo(ViewOf(chans, reg), Remove(c))
  {
    assert ViewOf(after, reg).fds == ViewOf(chans, reg).fds;
    assert ViewOf(after, reg).masks == ViewOf(chans, reg).masks;
  }

  lemma PollWatchesWantedUnlessIgnored<C>(s: Poll<C>)
    requires PollInv(s)
    ensures PollInterest(s) == Wanted(ViewOf(s.chans, s.reg)) - Ignored(s)
  {}

  /** The descriptors whose channel has been updated to no events at some time since it was added. */
  function Disabled<C(==)>(chans: map<C, Chan>, disabled: set<nat>, op: Op<C>): set<nat>
    requires op.c in chans
  {
    var ch := chans[op.c];
    match op
    case Update(_, events) => if ch.index >= 0 && events == 0 then disabled + {ch.fd} else disabled
    case Remove(_) => disabled - {ch.fd}
  }

  /** A slot is negated exactly from the first such update until the channel is removed. */
  lemma IgnoredMeansDisabled<C>(s: Poll<C>, op: Op<C>)
    requires PollInv(s) && PollAllows(s, op)
    ensures PollInv(PollDo(s, op)) && Ignored(PollDo(s, op)) == Disabled(s.chans, Ignored(s), op)
  {
    PollDoKeepsInv(s, op);
    var t := PollDo(s, op);
    var fd := s.chans[op.c].fd;
    match op
    case Update(c, events) =>
      assert SlotOf(t, fd).fd < 0 <==> s.chans[c].index >= 0 && (events == 0 || SlotOf(s, fd).fd < 0);
      forall f | f in s.reg && f != fd
        ensures f in t.reg && SlotOf(t, f) == SlotOf(s, f)
      {}
    case Remove(c) =>
      forall f | f in t.reg
        ensures f in s.reg && SlotOf(t, f) == SlotOf(s, f)
      {
        RemoveKeepsSlot(s, c, f);
      }
  }

  lemma RemoveKeepsSlot<C>(s: Poll<C>, c: C, f: nat)
    requires PollInv(s) && PollAllows(s, Remove(c)) && f in s.reg && f != s.chans[c].fd
    ensures var t := PollDo(s, Remove(c));
            PollInv(t) && f in t.reg && SlotOf(t, f) == SlotOf(s, f)
  {
    PollRemoveKeepsInv(s, c);
    var t := PollDo(s, Remove(c));
    var last := |s.slots| - 1;
    if s.chans[s.reg[f]].index == last {
      assert s.reg[f] == LastChannel(s);
    } else {
      assert t.chans[s.reg[f]] == s.chans[s.reg[f]];
    }
  }

  /** Both pollers after the same calls, with the history above. */
  datatype Both<C> = Both(poll: Poll<C>, epoll: Epoll<C>, disabled: set<nat>)

  ghost predicate Agree<C>(b: Both<C>) {
    && PollInv(b.poll) && EpollInv(b.epoll)
    && ViewOf(b.poll.chans, b.poll.reg) == ViewOf(b.epoll.chans, b.epoll.reg)
    && b.disabled == Ignored(b.poll)
    && forall c | c in b.poll.chans && b.poll.chans[c].index < 0 :: !Registered(b.poll.chans, b.poll.reg, c)
  }

  lemma SameView<C>(b: Both<C>, c: C)
    requires ViewOf(b.poll.chans, b.poll.reg) == ViewOf(b.epoll.chans, b.epoll.reg) && c in b.poll.chans
    ensures c in b.epoll.chans
    ensures b.poll.chans[c].fd == b.epoll.chans[c].fd && b.poll.chans[c].events == b.epoll.chans[c].events
    ensures Registered(b.poll.chans, b.poll.reg, c) <==> Registered(b.epoll.chans, b.epoll.reg, c)
  {
    assert c in ViewOf(b.poll.chans, b.poll.reg).fds && c in ViewOf(b.poll.chans, b.poll.reg).masks;
    assert ViewOf(b.epoll.chans, b.epoll.reg).fds[c] == b.poll.chans[c].fd;
    assert ViewOf(b.epoll.chans, b.epoll.reg).masks[c] == b.poll.chans[c].events;
  }

  /** What passes PollPoller's assertions passes EPollPoller's. */
  lemma AllowedByBoth<C>(b: Both<C>, op: Op<C>)
    requires Agree(b) && PollAllows(b.poll, op)
    ensures EpollAllows(b.epoll, op)
  {
    SameView(b, op.c);
    PollAssertsExactly(b.poll, op.c);
    EpollAssertsExactly(b.epoll, op.c);
    hide PollInv, EpollInv, PollUpdateAsserts, PollRemoveAsserts, EpollUpdateAsserts, EpollRemoveAsserts;
    assert b.poll.reg == b.epoll.reg;
  }

  /** The same calls keep the two in agreement. */
  ghost function BothDo<C>(b: Both<C>, op: Op<C>): (r: Both<C>)
    requires Agree(b) && PollAllows(b.poll, op)
    ensures Agree(r) && EpollAllows(b.epoll, op)
  {
    AllowedByBoth(b, op);
    PollImplementsView(b.poll, op);
    EpollImplementsView(b.epoll, op);
    IgnoredMeansDisabled(b.poll, op);
    EpollDoKeepsInv(b.epoll, op);
    RegisteredHaveSlots(PollDo(b.poll, op));
    hide PollInv, EpollInv, ViewOf, Registered, PollDo, EpollDo, PollAllows, EpollAllows, Disabled;
    Both(PollDo(b.poll, op), EpollDo(b.epoll, op), Disabled(b.poll.chans, b.disabled, op))
  }

  lemma RegisteredHaveSlots<C>(s: Poll<C>)
    requires PollInv(s)
    ensures forall c | c in s.chans && s.chans[c].index < 0 :: !Registered(s.chans, s.reg, c)
  {}

  ghost predicate AllAllowed<C>(b: Both<C>, ops: seq<Op<C>>)
    requires Agree(b)
    decreases |ops|
  {
    ops == [] || (PollAllows(b.poll, ops[0]) && AllAllowed(BothDo(b, ops[0]), ops[1..]))
  }

  ghost function BothRun<C>(b: Both<C>, ops: seq<Op<C>>): (r: Both<C>)
    requires Agree(b) && AllAllowed(b, ops)
    ensures Agree(r)
    decreases |ops|
  {
    if ops == [] then b else BothRun(BothDo(b, ops[0]), ops[1..])
  }

  /** Channels on given descriptors, none of them updated yet. */
  function FreshChannels<C>(fds: map<C, nat>): map<C, Chan> { map c | c in fds :: Chan(fds[c], 0, K_NEW) }

  lemma FreshPoll<C>(fds: map<C, nat>)
    ensures PollInv(Poll(FreshChannels(fds), map[], []))
    ensures Ignored(Poll(FreshChannels(fds), map[], [])) == {}
  {}

  lemma FreshEpoll<C>(fds: map<C, nat>)
    ensures EpollInv(Epoll(FreshChannels(fds), map[], map[]))
  {}

  ghost function Fresh<C>(fds: map<C, nat>): (b: Both<C>)
    ensures Agree(b)
  {
    FreshPoll(fds);
    FreshEpoll(fds);
    hide PollInv, EpollInv, FreshChannels, Ignored;
    Both(Poll(FreshChannels(fds), map[], []), Epoll(FreshChannels(fds), map[], map[]), {})
  }

  /**
   * The two pollers watch the same descriptors for the same events, but for those PollPoller has
   * stopped watching: the ones disabled since they were added and then enabled again. So they watch
   * the same exactly when there is none of these.
   */
  lemma PollersWatchTheSame<C>(fds: map<C, nat>, ops: seq<Op<C>>)
    requires AllAllowed(Fresh(fds), ops)
    ensures var b := BothRun(Fresh(fds), ops);
            && EpollInterest(b.epoll) == Wanted(ViewOf(b.epoll.chans, b.epoll.reg))
            && PollInterest(b.poll) == EpollInterest(b.epoll) - b.disabled
            && (PollInterest(b.poll) == EpollInterest(b.epoll)
                <==> forall fd | fd in b.disabled :: b.poll.chans[b.poll.reg[fd]].events == 0)
  {
    var b := BothRun(Fresh(fds), ops);
    EpollWatchesWanted(b.epoll);
    PollWatchesWantedUnlessIgnored(b.poll);
    WantedIgnored(b);
    hide PollInv, EpollInv, ViewOf, Wanted, PollInterest, EpollInterest, AllAllowed, BothRun, Fresh;
  }

  lemma WantedIgnored<C>(b: Both<C>)
    requires Agree(b)
    ensures var wanted := Wanted(ViewOf(b.poll.chans, b.poll.reg));
            && (forall fd | fd in b.disabled :: fd in b.poll.reg && b.poll.reg[fd] in b.poll.chans)
            && (wanted - b.disabled == wanted
                <==> forall fd | fd in b.disabled :: b.poll.chans[b.poll.reg[fd]].events == 0)
  {
    hide Wanted, ViewOf, EpollInv;
    WantedMeansEnabled(b.poll);
    NothingTaken(Wanted(ViewOf(b.poll.chans, b.poll.reg)), b.disabled);
  }

  lemma WantedMeansEnabled<C>(s: Poll<C>)
    requires PollInv(s)
    ensures forall fd | fd in Ignored(s) ::
              && fd in s.reg && s.reg[fd] in s.chans
              && (fd in Wanted(ViewOf(s.chans, s.reg)) <==> s.chans[s.reg[fd]].events != 0)
  {}

  lemma NothingTaken(wanted: map<nat, Mask>, ignored: set<nat>)
    ensures wanted - ignored == wanted <==> forall fd | fd in ignored :: fd !in wanted
  {
    if fd :| fd in ignored && fd in wanted {
      assert fd !in wanted - ignored;
    } else {
      assert wanted - ignored == wanted;
    }
  }

  /** Disable any registered channel and enable it again: epoll watches it, poll does not. */
  lemma ReenabledIsNotPolled<C>(b: Both<C>, c: C, events: Mask)
    requires Agree(b) && Registered(b.poll.chans, b.poll.reg, c) && events != 0
    ensures PollAllows(b.poll, Update(c, 0)) && PollAllows(BothDo(b, Update(c, 0)).poll, Update(c, events))
    ensures var t := BothDo(BothDo(b, Update(c, 0)), Update(c, events));
            b.poll.chans[c].fd in EpollInterest(t.epoll) && b.poll.chans[c].fd !in PollInterest(t.poll)
  {
    var fd := b.poll.chans[c].fd;
    assert PollAllows(b.poll, Update(c, 0));
    var off := BothDo(b, Update(c, 0));
    StaysRegistered(b, c, 0);
    var on := BothDo(off, Update(c, events));
    StaysRegistered(off, c, events);
    EpollWatchesWanted(on.epoll);
    SameView(on, c);
    assert fd in on.disabled;
    PollWatchesWantedUnlessIgnored(on.poll);
    hide PollInv, EpollInv, PollDo, EpollDo, PollInterest, EpollInterest;
    assert on.epoll.chans[c].events == events;
    assert fd in Wanted(ViewOf(on.epoll.chans, on.epoll.reg));
  }

  lemma StaysRegistered<C>(b: Both<C>, c: C, events: Mask)
    requires Agree(b) && Registered(b.poll.chans, b.poll.reg, c)
    ensures PollAllows(b.poll, Update(c, events))
    ensures var t := BothDo(b, Update(c, events));
            && Registered(t.poll.chans, t.poll.reg, c)
            && t.poll.chans[c] == b.poll.chans[c].(events := events)
            && t.disabled == (if events == 0 then b.disabled + {b.poll.chans[c].fd} else b.disabled)
            && PollAllows(t.poll, Update(c, events))
  {
    RegisteredHaveSlots(b.poll);
    PollAssertsExactly(b.poll, c);
    var t := BothDo(b, Update(c, events));
    PollAssertsExactly(t.poll, c);
  }

  /**
   * EPollPoller accepts more: a channel updated again after its removal, whose stale index PollPoller
   * takes for a slot, and the removal of a channel that was never disabled while registered.
   */
  lemma WhereAssertionsDiffer<C>(b: Both<C>, op: Op<C>)
    requires Agree(b) && op.c in b.poll.chans && EpollAllows(b.epoll, op)
    ensures PollAllows(b.poll, op) <==>
              match op
              case Update(c, _) => b.poll.chans[c].index < 0 || Registered(b.poll.chans, b.poll.reg, c)
              case Remove(c) => b.poll.chans[c].fd in b.disabled
  {
    SameView(b, op.c);
    PollAssertsExactly(b.poll, op.c);
    EpollAssertsExactly(b.epoll, op.c);
    assert b.poll.reg == b.epoll.reg;
    hide EpollInv, EpollUpdateAsserts, EpollRemoveAsserts, PollUpdateAsserts, PollRemoveAsserts;
  }

  /** Both happen. A channel properly disabled and removed cannot come back to PollPoller ... */
  lemma RemovedCannotReturn<C>(b: Both<C>, c: C, events: Mask)
    requires Agree(b) && Registered(b.poll.chans, b.poll.reg, c)
    ensures PollAllows(b.poll, Update(c, 0)) && PollAllows(BothDo(b, Update(c, 0)).poll, Remove(c))
    ensures var t := BothDo(BothDo(b, Update(c, 0)), Remove(c));
            EpollAllows(t.epoll, Update(c, events)) && !PollAllows(t.poll, Update(c, events))
  {
    StaysRegistered(b, c, 0);
    var off := BothDo(b, Update(c, 0));
    AllowedByBoth(b, Update(c, 0));
    MayBeRemoved(off, c);
    var t := BothDo(off, Remove(c));
    RemovedKeepsIndex(off, c);
    SameView(t, c);
    EpollAssertsExactly(t.epoll, c);
    assert t.poll.reg == t.epoll.reg;
    hide PollInv, EpollInv, PollDo, EpollDo, PollUpdateAsserts, EpollUpdateAsserts, Disabled, Ignored;
    WhereAssertionsDiffer(t, Update(c, events));
  }

  lemma MayBeRemoved<C>(b: Both<C>, c: C)
    requires Agree(b) && Registered(b.poll.chans, b.poll.reg, c)
    requires b.poll.chans[c].events == 0 && b.poll.chans[c].fd in b.disabled
    ensures PollAllows(b.poll, Remove(c))
  {
    PollAssertsExactly(b.poll, c);
  }

  lemma RemovedKeepsIndex<C>(b: Both<C>, c: C)
    requires Agree(b) && PollAllows(b.poll, Remove(c))
    ensures var t := BothDo(b, Remove(c));
            && c in t.poll.chans && t.poll.chans[c].index == b.poll.chans[c].index >= 0
            && t.poll.chans[c].fd == b.poll.chans[c].fd && t.poll.chans[c].fd !in t.poll.reg
  {
    PollRemoveKeepsInv(b.poll, c);
    LastIsMoved(b.poll, c);
  }

  /** ... and one first added with no events, and so never disabled, cannot leave it. */
  lemma UndisabledCannotLeave<C>(b: Both<C>, c: C)
    requires Agree(b) && c in b.poll.chans && b.poll.chans[c].index < 0 && b.poll.chans[c].fd !in b.poll.reg
    ensures PollAllows(b.poll, Update(c, 0))
    ensures var t := BothDo(b, Update(c, 0));
            EpollAllows(t.epoll, Remove(c)) && !PollAllows(t.poll, Remove(c))
  {
    var t := BothDo(b, Update(c, 0));
    FreshIsUndisabled(b, c);
    SameView(t, c);
    EpollAssertsExactly(t.epoll, c);
    hide PollInv, EpollInv, PollDo, EpollDo, PollRemoveAsserts, EpollRemoveAsserts, Disabled, Ignored;
    WhereAssertionsDiffer(t, Remove(c));
  }

  lemma FreshIsUndisabled<C>(b: Both<C>, c: C)
    requires Agree(b) && c in b.poll.chans && b.poll.chans[c].index < 0 && b.poll.chans[c].fd !in b.poll.reg
    ensures PollAllows(b.poll, Update(c, 0))
    ensures var t := BothDo(b, Update(c, 0));
            && Registered(t.poll.chans, t.poll.reg, c) && t.poll.chans[c].events == 0
            && t.poll.chans[c].fd !in t.disabled
  {}
}
