/**
 Channels and the two pollers.  One poller keeps a dense array handed to poll(2), marks a
 silenced descriptor by storing a negative number, and removes by swapping with the last
 entry.  The other keeps a state in each channel and an interest set in the kernel.  Both
 are proved against the same registry of descriptors and masks.
 */
module Channels {

  /** The event bits of poll(2), which epoll shares. */
  type Mask = bv16

  const POLLIN: Mask := 0x001
  const POLLPRI: Mask := 0x002
  const POLLOUT: Mask := 0x004
  const POLLHUP: Mask := 0x010
  const POLLRDHUP: Mask := 0x2000

  const NONE_EVENT: Mask := 0
  const READ_EVENT: Mask := 0x003
  const WRITE_EVENT: Mask := 0x004

  function With(m: Mask, bits: Mask): Mask {
    m | bits
  }

  function Without(m: Mask, bits: Mask): Mask {
    m & !bits
  }

  predicate Has(m: Mask, bits: Mask) {
    m & bits != NONE_EVENT
  }

  class Channel {
    const fd: nat
    var events: Mask
    var revents: Mask
    var index: int         // used by the poller
    var addedToLoop: bool

    constructor (fd: nat)
      ensures this.fd == fd && events == NONE_EVENT && revents == NONE_EVENT && index == -1 && !addedToLoop
    {
      this.fd := fd;
      events, revents, index, addedToLoop := NONE_EVENT, NONE_EVENT, -1, false;
    }

    predicate IsNoneEvent()
      reads this
    {
      events == NONE_EVENT
    }

    predicate IsReading()
      reads this
    {
      Has(events, READ_EVENT)
    }

    predicate IsWriting()
      reads this
    {
      Has(events, WRITE_EVENT)
    }

    /** Sets the mask; the poller is then told. */
    method Update(mask: Mask)
      modifies this`events, this`addedToLoop
      ensures events == mask && addedToLoop
    {
      events := mask;
      addedToLoop := true;
    }

    method EnableReading()
      modifies this`events, this`addedToLoop
      ensures events == With(old(events), READ_EVENT) && addedToLoop
    {
      Update(With(events, READ_EVENT));
    }

    method DisableReading()
      modifies this`events, this`addedToLoop
      ensures events == Without(old(events), READ_EVENT) && addedToLoop
    {
      Update(Without(events, READ_EVENT));
    }

    method EnableWriting()
      modifies this`events, this`addedToLoop
      ensures events == With(old(events), WRITE_EVENT) && addedToLoop
    {
      Update(With(events, WRITE_EVENT));
    }

    method DisableWriting()
      modifies this`events, this`addedToLoop
      ensures events == Without(old(events), WRITE_EVENT) && addedToLoop
    {
      Update(Without(events, WRITE_EVENT));
    }

    method DisableAll()
      modifies this`events, this`addedToLoop
      ensures IsNoneEvent() && addedToLoop
    {
      Update(NONE_EVENT);
    }

    method Remove()
      requires IsNoneEvent()
      modifies this`addedToLoop
      ensures !addedToLoop
    {
      addedToLoop := false;
    }
  }
}

module PollRegistry {
  import opened Channels

  /** What a poller is for: the current mask of every registered descriptor. */
  type Registry = map<nat, Mask>

  datatype Action =
    | Update(fd: nat, events: Mask)
    | Remove(fd: nat)

  /** A channel starts with something to watch and is removed when it watches nothing. */
  predicate Legal(r: Registry, action: Action) {
    match action
    case Update(fd, events) => fd in r || events != NONE_EVENT
    case Remove(fd) => fd in r && r[fd] == NONE_EVENT
  }

  function Apply(r: Registry, action: Action): Registry {
    match action
    case Update(fd, events) => r[fd := events]
    case Remove(fd) => r - {fd}
  }

  /** The descriptors for which something is watched. */
  function Watched(r: Registry): set<(nat, Mask)> {
    set fd | fd in r && r[fd] != NONE_EVENT :: (fd, r[fd])
  }

  predicate Holds(r: Registry, fd: nat, events: Mask) {
    fd in r && r[fd] == events
  }

  lemma WatchedMask(r: Registry, fd: nat, events: Mask)
    requires events != NONE_EVENT
    ensures (fd, events) in Watched(r) <==> Holds(r, fd, events)
  {
  }

  predicate LegalRun(r: Registry, actions: seq<Action>)
    decreases actions
  {
    actions != [] ==> Legal(r, actions[0]) && LegalRun(Apply(r, actions[0]), actions[1..])
  }

  function Run(r: Registry, actions: seq<Action>): Registry
    decreases actions
  {
    if actions == [] then r else Run(Apply(r, actions[0]), actions[1..])
  }

  lemma RunNothing(r: Registry)
    ensures Run(r, []) == r
  {
  }

  /** A descriptor is registered, with some mask, if and only if the last action on it, if any,
      stored that mask. */
  lemma {:induction false} LastActionCounts(r: Registry, actions: seq<Action>, fd: nat)
    ensures var d := Run(r, actions);
            && ((forall i :: 0 <= i < |actions| ==> actions[i].fd != fd) ==>
                  (fd in d <==> fd in r) && (fd in r ==> d[fd] == r[fd]))
            && (forall i :: 0 <= i < |actions| && actions[i].fd == fd && (forall j :: i < j < |actions| ==> actions[j].fd != fd) ==>
                  if actions[i].Update? then fd in d && d[fd] == actions[i].events else fd !in d)
    decreases actions
  {
    if actions != [] {
      var tail := actions[1..];
      LastActionCounts(Apply(r, actions[0]), tail, fd);
      assert forall i :: 0 < i < |actions| ==> actions[i] == tail[i - 1];
      if (forall j :: 0 < j < |actions| ==> actions[j].fd != fd) {
        assert forall i :: 0 <= i < |tail| ==> tail[i] == actions[i + 1];
      }
      forall i | 0 < i < |actions| && actions[i].fd == fd && (forall j :: i < j < |actions| ==> actions[j].fd != fd)
        ensures var d := Run(r, actions); if actions[i].Update? then fd in d && d[fd] == actions[i].events else fd !in d
      {
        assert forall j :: i - 1 < j < |tail| ==> tail[j] == actions[j + 1];
      }
    }
  }

  lemma Unfold(r: Registry, actions: seq<Action>, i: nat)
    requires i < |actions| && LegalRun(r, actions[i..])
    ensures Legal(r, actions[i]) && LegalRun(Apply(r, actions[i]), actions[i + 1..])
    ensures Run(Apply(r, actions[i]), actions[i + 1..]) == Run(r, actions[i..])
  {
    assert actions[i..][1..] == actions[i + 1..];
  }
}

module PollPollers {
  import opened Wrappers
  import opened Channels
  import opened PollRegistry

  datatype PollFd = PollFd(fd: int, events: Mask, revents: Mask)

  /** The descriptor an entry stands for, silenced or not. */
  function Decode(fd: int): int {
    if fd < 0 then Silenced(fd) else fd
  }

  /** The negative number that makes poll(2) skip a descriptor. */
  function Silenced(fd: int): int {
    -fd - 1
  }

  /** An entry watched by poll(2) under mask `events`, or silenced when that is empty. */
  predicate Encodes(pfd: PollFd, fd: nat, events: Mask) {
    pfd.events == events && (if events == NONE_EVENT then pfd.fd == Silenced(fd) else pfd.fd == fd)
  }

  /** What poll(2) watches: negative descriptors are ignored. */
  function WatchedBy(pollfds: seq<PollFd>): set<(nat, Mask)> {
    set i | 0 <= i < |pollfds| && pollfds[i].fd >= 0 && pollfds[i].events != NONE_EVENT :: (pollfds[i].fd, pollfds[i].events)
  }

  predicate Lists(pollfds: seq<PollFd>, fd: nat, events: Mask) {
    exists i :: 0 <= i < |pollfds| && pollfds[i].fd == fd && pollfds[i].events == events
  }

  lemma WatchedBits(pollfds: seq<PollFd>, fd: nat, events: Mask)
    requires events != NONE_EVENT
    ensures (fd, events) in WatchedBy(pollfds) <==> Lists(pollfds, fd, events)
  {
  }

  /** Every registered descriptor owns one array entry, that of its index, and every entry has
      an owner. */
  ghost predicate Arranged(pollfds: seq<PollFd>, index: map<nat, nat>, r: Registry) {
    && index.Keys == r.Keys
    && (forall fd :: fd in index ==> index[fd] < |pollfds| && Encodes(pollfds[index[fd]], fd, r[fd]))
    && (forall i :: 0 <= i < |pollfds| ==> Decode(pollfds[i].fd) in index && index[Decode(pollfds[i].fd)] == i)
  }

  lemma WatchedIsRegistry(pollfds: seq<PollFd>, index: map<nat, nat>, r: Registry)
    requires Arranged(pollfds, index, r)
    ensures WatchedBy(pollfds) == Watched(r)
  {
    forall fd, events ensures (fd, events) in WatchedBy(pollfds) <==> (fd, events) in Watched(r) {
      if fd in r {
        assert Encodes(pollfds[index[fd]], fd, r[fd]);
      }
      if (fd, events) in WatchedBy(pollfds) {
        var i :| 0 <= i < |pollfds| && pollfds[i].fd >= 0 && (fd, events) == (pollfds[i].fd, pollfds[i].events);
        assert index[fd] == i;
      }
    }
  }

  /** A first update appends an entry that is never silenced: the array stays arranged, and
      the assertion of a later removal holds, exactly when the first mask is not empty. */
  lemma PushArranged(pollfds: seq<PollFd>, index: map<nat, nat>, r: Registry, fd: nat, events: Mask)
    requires Arranged(pollfds, index, r) && fd !in r
    ensures Arranged(pollfds + [PollFd(fd, events, 0)], index[fd := |pollfds|], r[fd := events]) <==> events != NONE_EVENT
  {
    var pollfds' := pollfds + [PollFd(fd, events, 0)];
    var index' := index[fd := |pollfds|];
    assert index'[fd] == |pollfds| && pollfds'[|pollfds|] == PollFd(fd, events, 0);
    forall i | 0 <= i < |pollfds'|
      ensures Decode(pollfds'[i].fd) in index' && index'[Decode(pollfds'[i].fd)] == i
    {
      if i < |pollfds| {
        assert pollfds'[i] == pollfds[i] && Decode(pollfds[i].fd) in index;
      }
    }
  }

  lemma ChangeArranged(pollfds: seq<PollFd>, index: map<nat, nat>, r: Registry, fd: nat, pfd: PollFd)
    requires Arranged(pollfds, index, r) && fd in r && Encodes(pfd, fd, pfd.events)
    ensures Arranged(pollfds[index[fd] := pfd], index, r[fd := pfd.events])
  {
    forall other | other in index && other != fd ensures index[other] != index[fd] {
      assert Decode(pollfds[index[other]].fd) == other;
      assert Decode(pollfds[index[fd]].fd) == fd;
    }
  }

  /** Swap-removal: the last entry takes the place of the removed one. */
  function SwapRemoved(pollfds: seq<PollFd>, idx: nat): seq<PollFd>
    requires idx < |pollfds|
  {
    pollfds[idx := pollfds[|pollfds| - 1]][..|pollfds| - 1]
  }

  lemma SwapRemoveOwners(pollfds: seq<PollFd>, index: map<nat, nat>, r: Registry, fd: nat, end: nat)
    requires Arranged(pollfds, index, r) && fd in r && end == Decode(pollfds[|pollfds| - 1].fd)
    ensures var pollfds', index' := SwapRemoved(pollfds, index[fd]), index[end := index[fd]] - {fd};
            forall i :: 0 <= i < |pollfds'| ==> Decode(pollfds'[i].fd) in index' && index'[Decode(pollfds'[i].fd)] == i
  {
    var idx := index[fd];
    assert Decode(pollfds[idx].fd) == fd;
    var pollfds', index' := SwapRemoved(pollfds, idx), index[end := idx] - {fd};
    forall i | 0 <= i < |pollfds'|
      ensures Decode(pollfds'[i].fd) in index' && index'[Decode(pollfds'[i].fd)] == i
    {
      assert pollfds'[i] == if i == idx then pollfds[|pollfds| - 1] else pollfds[i];
      assert Decode(pollfds[i].fd) in index && index[Decode(pollfds[i].fd)] == i;
    }
  }

  lemma SwapRemoveArranged(pollfds: seq<PollFd>, index: map<nat, nat>, r: Registry, fd: nat)
    requires Arranged(pollfds, index, r) && fd in r
    ensures var end := Decode(pollfds[|pollfds| - 1].fd);
            && end in index && index[end] == |pollfds| - 1
            && (end == fd <==> index[fd] == |pollfds| - 1)
            && Arranged(SwapRemoved(pollfds, index[fd]), index[end := index[fd]] - {fd}, r - {fd})
  {
    var last := |pollfds| - 1;
    var end := Decode(pollfds[last].fd);
    var idx := index[fd];
    assert Decode(pollfds[idx].fd) == fd;
    SwapRemoveOwners(pollfds, index, r, fd, end);
    var pollfds', index' := SwapRemoved(pollfds, idx), index[end := idx] - {fd};
    forall other | other in index' ensures index'[other] < |pollfds'| && Encodes(pollfds'[index'[other]], other, r[other]) {
      assert Decode(pollfds[index[other]].fd) == other;
    }
  }

  /** What the bodies read of the array entry a channel owns. */
  lemma OwnEntry(pollfds: seq<PollFd>, index: map<nat, nat>, r: Registry, fd: nat)
    requires Arranged(pollfds, index, r)
    ensures fd in index <==> fd in r
    ensures fd in index ==> index[fd] < |pollfds| && Encodes(pollfds[index[fd]], fd, r[fd])
  {
  }

  /** `revents > 0` on a short: something happened on this entry. */
  predicate Happened(pfd: PollFd) {
    0 < pfd.revents < 0x8000
  }

  /** The descriptors on which something happened, in array order: what poll(2) counts. */
  function Active(pollfds: seq<PollFd>): seq<int> {
    if pollfds == [] then []
    else (if Happened(pollfds[0]) then [pollfds[0].fd] else []) + Active(pollfds[1..])
  }

  lemma ActiveStep(pollfds: seq<PollFd>, i: nat)
    requires i < |pollfds|
    ensures Active(pollfds[i..]) == (if Happened(pollfds[i]) then [pollfds[i].fd] else []) + Active(pollfds[i + 1..])
  {
    assert pollfds[i..][1..] == pollfds[i + 1..];
  }

  lemma NoneActive()
    ensures Active([]) == []
  {
  }

  /** Where poll(2) counts nothing, nothing happened. */
  lemma {:induction false} CountIsZero(pollfds: seq<PollFd>)
    requires |Active(pollfds)| == 0
    ensures forall i :: 0 <= i < |pollfds| ==> !(0 < pollfds[i].revents < 0x8000)
  {
    if pollfds != [] {
      CountIsZero(pollfds[1..]);
      assert forall i :: 0 < i < |pollfds| ==> pollfds[i] == pollfds[1..][i - 1];
    }
  }

  /** `pollfds` after poll(2) has filled in what happened. */
  function Answered(pollfds: seq<PollFd>, answers: seq<Mask>): (r: seq<PollFd>)
    requires |answers| == |pollfds|
    ensures |r| == |pollfds|
    ensures forall i :: 0 <= i < |r| ==> r[i] == pollfds[i].(revents := answers[i])
  {
    seq(|pollfds|, i requires 0 <= i < |pollfds| => pollfds[i].(revents := answers[i]))
  }

  lemma AnsweredArranged(pollfds: seq<PollFd>, answers: seq<Mask>, index: map<nat, nat>, r: Registry)
    requires Arranged(pollfds, index, r) && |answers| == |pollfds|
    ensures Arranged(Answered(pollfds, answers), index, r)
    ensures forall i :: 0 <= i < |pollfds| ==> Decode(pollfds[i].fd) in index && index[Decode(pollfds[i].fd)] == i
  {
  }

  class PollPoller {
    var pollfds: seq<PollFd>
    var channels: map<nat, Channel>
    ghost var index: map<nat, nat>     // the indices stored in the channels
    ghost var owned: set<Channel>      // the registered channels
    ghost var registry: Registry

    /** The map holds the registered channels, each under its descriptor and with its index. */
    ghost predicate Linked()
      reads this, owned`index
    {
      && channels.Keys == index.Keys
      && (forall c :: c in owned ==> c.fd in channels && channels[c.fd] == c)
      && (forall fd :: fd in channels ==>
            channels[fd] in owned && channels[fd].fd == fd && channels[fd].index == index[fd])
    }

    ghost predicate Valid()
      reads this, owned`index
    {
      Linked() && Arranged(pollfds, index, registry)
    }

    constructor ()
      ensures Valid() && registry == map[] && owned == {}
    {
      pollfds, channels, index, owned, registry := [], map[], map[], {}, map[];
    }

    /** A new channel gets a new entry; the array stays in order if and only if its mask is not
        empty. */
    method Push(channel: Channel)
      requires Valid() && channel.fd !in channels
      modifies this, channel`index
      ensures Valid() <==> channel.events != NONE_EVENT
      ensures owned == old(owned) + {channel}
      ensures registry == Apply(old(registry), Update(channel.fd, channel.events))
    {
      hide Arranged;
      var fd := channel.fd;
      OwnEntry(pollfds, index, registry, fd);
      PushArranged(pollfds, index, registry, fd, channel.events);
      pollfds := pollfds + [PollFd(fd, channel.events, 0)];
      var idx := |pollfds| - 1;
      channel.index := idx;
      channels := channels[fd := channel];
      index := index[fd := idx];
      owned := owned + {channel};
      registry := Apply(registry, Update(fd, channel.events));
      assert Linked();
    }

    /** Keeps the array in order if and only if the first mask of a new channel is not empty. */
    method UpdateChannel(channel: Channel)
      requires Valid()
      requires channel.index < 0 ==> channel.fd !in channels
      requires channel.index >= 0 ==> channel.fd in channels && channels[channel.fd] == channel
      modifies this, channel`index
      ensures Valid() <==> old(channel.index) >= 0 || channel.events != NONE_EVENT
      ensures owned == old(owned) + {channel}
      ensures registry == Apply(old(registry), Update(channel.fd, channel.events))
    {
      hide Arranged;
      var fd := channel.fd;
      OwnEntry(pollfds, index, registry, fd);
      if channel.index < 0 {
        assert fd !in channels;
        Push(channel);
      } else {
        var idx := channel.index;
        assert 0 <= idx < |pollfds|;
        assert pollfds[idx].fd == fd || pollfds[idx].fd == Silenced(fd);
        var pfd := PollFd(fd, channel.events, 0);
        if channel.events == NONE_EVENT {
          pfd := pfd.(fd := Silenced(fd));
        }
        ChangeArranged(pollfds, index, registry, fd, pfd);
        pollfds := pollfds[idx := pfd];
        registry := Apply(registry, Update(fd, channel.events));
      }
    }

    /** Swaps the last entry into a position and tells its channel. */
    method MoveLast(idx: nat, ghost moved: Channel)
      requires idx < |pollfds| - 1
      requires Decode(pollfds[|pollfds| - 1].fd) in channels && channels[Decode(pollfds[|pollfds| - 1].fd)] == moved
      modifies this`pollfds, moved`index
      ensures pollfds == SwapRemoved(old(pollfds), idx) && moved.index == idx
    {
      var channelAtEnd := pollfds[|pollfds| - 1].fd;
      pollfds := pollfds[idx := pollfds[|pollfds| - 1]][|pollfds| - 1 := pollfds[idx]];
      if channelAtEnd < 0 {
        channelAtEnd := Silenced(channelAtEnd);
      }
      channels[channelAtEnd].index := idx;
      pollfds := pollfds[..|pollfds| - 1];
    }

    method RemoveChannel(channel: Channel)
      requires Valid()
      requires channel.fd in channels && channels[channel.fd] == channel
      requires channel.events == NONE_EVENT && registry[channel.fd] == NONE_EVENT
      modifies this, owned`index
      ensures Valid() && owned == old(owned) - {channel}
      ensures registry == Apply(old(registry), Remove(channel.fd))
    {
      hide Arranged;
      var fd := channel.fd;
      var idx := channel.index;
      OwnEntry(pollfds, index, registry, fd);
      SwapRemoveArranged(pollfds, index, registry, fd);
      assert 0 <= idx < |pollfds|;
      assert pollfds[idx].fd == Silenced(fd) && pollfds[idx].events == channel.events;
      ghost var end := Decode(pollfds[|pollfds| - 1].fd);
      channels := channels - {fd};
      owned := owned - {channel};
      if idx == |pollfds| - 1 {
        pollfds := pollfds[..|pollfds| - 1];
        assert index - {fd} == index[end := idx] - {fd};
      } else {
        MoveLast(idx, channels[end]);
      }
      assert pollfds == SwapRemoved(old(pollfds), idx);
      index := index[end := idx] - {fd};
      registry := Apply(registry, Remove(fd));
    }

    lemma Facts()
      requires Valid()
      ensures channels.Keys == registry.Keys == index.Keys
      ensures forall fd :: fd in channels ==> channels[fd] in owned && channels[fd].fd == fd && channels[fd].index >= 0
      ensures forall c :: c in owned ==> c.fd in channels && channels[c.fd] == c
    {
    }

    /** What the array asks poll(2) to watch is what the registry says. */
    lemma ArrayWatches()
      requires Valid()
      ensures WatchedBy(pollfds) == Watched(registry)
    {
      WatchedIsRegistry(pollfds, index, registry);
    }

    /** poll(2): the kernel says what happened on each entry, and nothing about silenced ones. */
    method Ask(answers: seq<Mask>) returns (numEvents: nat)
      requires Valid() && |answers| == |pollfds|
      requires forall i :: 0 <= i < |pollfds| && pollfds[i].fd < 0 ==> answers[i] == 0
      modifies this`pollfds
      ensures Valid() && pollfds == Answered(old(pollfds), answers)
      ensures numEvents == |Active(pollfds)|
      ensures forall i :: 0 <= i < |pollfds| && pollfds[i].fd < 0 ==> !Happened(pollfds[i])
      ensures forall i :: 0 <= i < |pollfds| ==> Decode(pollfds[i].fd) in index && index[Decode(pollfds[i].fd)] == i
    {
      hide Arranged, Active;
      AnsweredArranged(pollfds, answers, index, registry);
      pollfds := Answered(pollfds, answers);
      numEvents := |Active(pollfds)|;
    }

    /** The channels whose entries lie before `end` and had something happen on them, in order. */
    ghost predicate Listed(active: seq<Channel>, end: int)
      reads this, owned`revents
    {
      && (forall c :: c in active ==> c in owned && c.fd in index)
      && (forall c :: c in owned ==>
            (c in active <==> c.fd in index && index[c.fd] < end && index[c.fd] < |pollfds|
                              && 0 < pollfds[index[c.fd]].revents < 0x8000))
      && (forall c :: c in active ==> index[c.fd] < |pollfds| && c.revents == pollfds[index[c.fd]].revents)
      && (forall i, j :: 0 <= i < j < |active| ==> index[active[i].fd] < index[active[j].fd])
    }

    lemma OwnedHaveEntries()
      requires Valid()
      ensures forall c :: c in owned ==> c.fd in index && index[c.fd] < |pollfds|
    {
    }

    lemma ListNothing()
      requires Valid()
      ensures Listed([], 0)
    {
    }

    /** The entry at `i` belongs to one channel. */
    lemma ListSkip(active: seq<Channel>, i: nat)
      requires Valid() && Listed(active, i) && i < |pollfds| && !(0 < pollfds[i].revents < 0x8000)
      ensures Listed(active, i + 1)
    {
    }

    lemma ListOne(active: seq<Channel>, i: nat, channel: Channel)
      requires Valid() && Listed(active, i) && i < |pollfds| && 0 < pollfds[i].revents < 0x8000
      requires channel in owned && channel.fd in index && index[channel.fd] == i && channel.revents == pollfds[i].revents
      ensures Listed(active + [channel], i + 1)
    {
      forall c | c in owned && c.fd in index && index[c.fd] == i
        ensures c == channel
      {
        assert Decode(pollfds[i].fd) == c.fd == channel.fd;
      }
    }

    lemma ListRest(active: seq<Channel>, i: nat)
      requires Valid() && Listed(active, i) && i <= |pollfds|
      requires |Active(pollfds[i..])| == 0
      ensures Listed(active, |pollfds|)
    {
      CountIsZero(pollfds[i..]);
      assert forall k :: i <= k < |pollfds| ==> pollfds[k] == pollfds[i..][k - i];
    }

    /** Collects the channels on which something happened, in array order; stopping after
        `numEvents` entries misses none. */
    method FillActiveChannels(numEvents: nat) returns (active: seq<Channel>)
      requires Valid() && numEvents == |Active(pollfds)|
      requires forall i :: 0 <= i < |pollfds| && pollfds[i].fd < 0 ==> !Happened(pollfds[i])
      requires forall i :: 0 <= i < |pollfds| ==> Decode(pollfds[i].fd) in index && index[Decode(pollfds[i].fd)] == i
      modifies owned`revents
      ensures Valid() && |active| == numEvents && Listed(active, |pollfds|)
    {
      hide Valid, Active, Listed;
      Facts();
      var remaining := numEvents;
      active := [];
      ListNothing();
      var i := 0;
      assert pollfds[0..] == pollfds;
      while i < |pollfds| && remaining > 0
        invariant 0 <= i <= |pollfds| && Valid()
        invariant remaining == |Active(pollfds[i..])| && |active| + remaining == numEvents
        invariant Listed(active, i)
      {
        ActiveStep(pollfds, i);
        if Happened(pollfds[i]) {
          remaining := remaining - 1;
          var channel := SetRevents(i, active);
          ListOne(active, i, channel);
          active := active + [channel];
        } else {
          ListSkip(active, i);
        }
        i := i + 1;
      }
      if i == |pollfds| {
        assert pollfds[i..] == [];
        NoneActive();
      }
      ListRest(active, i);
    }

    /** One poll.  A registered channel is listed if and only if something happened on its entry,
        once, in the order of the array, and shows what happened; a call of poll(2) that fails
        lists none. */
    method Poll(answers: Option<seq<Mask>>) returns (active: seq<Channel>)
      requires Valid()
      requires answers.Some? ==> |answers.value| == |pollfds|
      requires answers.Some? ==> forall i :: 0 <= i < |pollfds| && pollfds[i].fd < 0 ==> answers.value[i] == 0
      modifies this`pollfds, owned`revents
      ensures Valid() && pollfds == if answers.Some? then Answered(old(pollfds), answers.value) else old(pollfds)
      ensures answers.None? ==> active == []
      ensures answers.Some? ==> forall c :: c in owned ==>
                c.fd in index && index[c.fd] < |answers.value| && (c in active <==> 0 < answers.value[index[c.fd]] < 0x8000)
      ensures answers.Some? ==> forall c :: c in active ==> c in owned && c.revents == answers.value[index[c.fd]]
      ensures forall c :: c in active ==> c in owned && c.fd in index
      ensures forall i, j :: 0 <= i < j < |active| ==>
                active[i] != active[j] && index[active[i].fd] < index[active[j].fd]
    {
      hide Valid, Active, Happened;
      Facts();
      active := [];
      if answers.Some? {
        var numEvents := Ask(answers.value);
        if numEvents > 0 {
          active := FillActiveChannels(numEvents);
        } else {
          ListNothing();
          assert pollfds[0..] == pollfds;
          ListRest([], 0);
        }
        OwnedHaveEntries();
      }
    }

    method SetRevents(i: nat, ghost active: seq<Channel>) returns (channel: Channel)
      requires Valid() && i < |pollfds| && pollfds[i].fd >= 0 && Listed(active, i)
      requires pollfds[i].fd in index && index[pollfds[i].fd] == i
      modifies owned`revents
      ensures Valid() && Listed(active, i)
      ensures channel in owned && channel.fd == pollfds[i].fd && channel.revents == pollfds[i].revents
    {
      Facts();
      assert pollfds[i].fd in channels;
      channel := channels[pollfds[i].fd];
      assert channel.fd == pollfds[i].fd;
      channel.revents := pollfds[i].revents;
    }

    // ---- A channel's own operations, which end in the poller ----

    /** Every registered channel's mask is the one last handed to the poller. */
    ghost predicate Tracking()
      reads this, owned
    {
      Valid() && forall c :: c in owned ==> c.fd in registry && c.events == registry[c.fd]
    }

    method Change(fd: nat, events: Mask)
      requires Tracking() && fd in registry
      modifies this, owned
      ensures Tracking() && owned == old(owned) && registry == Apply(old(registry), Update(fd, events))
    {
      hide Valid;
      Facts();
      var channel := channels[fd];
      channel.events := events;
      UpdateChannel(channel);
    }

    method Register(fd: nat, events: Mask)
      requires Tracking() && fd !in registry && events != NONE_EVENT
      modifies this
      ensures Tracking() && fresh(owned - old(owned)) && registry == Apply(old(registry), Update(fd, events))
    {
      hide Valid;
      Facts();
      var channel := new Channel(fd);
      channel.events := events;
      UpdateChannel(channel);
    }

    method Unregister(fd: nat)
      requires Tracking() && fd in registry && registry[fd] == NONE_EVENT
      modifies this, owned
      ensures Tracking() && owned <= old(owned) && registry == Apply(old(registry), Remove(fd))
    {
      hide Valid;
      Facts();
      RemoveChannel(channels[fd]);
    }
  }
}

module EPollPollers {
  import opened Channels
  import opened PollRegistry

  const NEW := -1
  const ADDED := 1
  const DELETED := 2

  class EPollPoller {
    var channels: map<nat, Channel>
    ghost var kernel: Registry         // the kernel's interest set
    ghost var owned: set<Channel>      // the registered channels
    ghost var registry: Registry

    /** A channel is in the kernel's set, with its current mask, exactly when it is marked as
        added; otherwise nothing is watched for it. */
    ghost predicate Valid()
      reads this, owned`index
    {
      && channels.Keys == registry.Keys
      && (forall fd :: fd in kernel ==> fd in channels)
      && (forall c :: c in owned ==> c.fd in channels && channels[c.fd] == c)
      && (forall fd :: fd in channels ==>
            && channels[fd] in owned && channels[fd].fd == fd
            && channels[fd].index == (if fd in kernel then ADDED else DELETED)
            && registry[fd] == (if fd in kernel then kernel[fd] else NONE_EVENT))
    }

    constructor ()
      ensures Valid() && registry == map[] && owned == {}
    {
      channels, kernel, owned, registry := map[], map[], {}, map[];
    }

    /** epoll_ctl(2) refuses to add a descriptor twice and to modify or delete a missing one. */
    ghost method Add(channel: Channel)
      requires channel.fd !in kernel
      modifies this`kernel
      ensures kernel == old(kernel)[channel.fd := channel.events]
    {
      kernel := kernel[channel.fd := channel.events];
    }

    ghost method Modify(channel: Channel)
      requires channel.fd in kernel
      modifies this`kernel
      ensures kernel == old(kernel)[channel.fd := channel.events]
    {
      kernel := kernel[channel.fd := channel.events];
    }

    ghost method Delete(channel: Channel)
      requires channel.fd in kernel
      modifies this`kernel
      ensures kernel == old(kernel) - {channel.fd}
    {
      kernel := kernel - {channel.fd};
    }

    /** A channel that the kernel does not have is added to its set. */
    method AddToKernel(channel: Channel)
      requires Valid() && channel.fd !in kernel
      requires channel.fd in channels ==> channels[channel.fd] == channel
      modifies this, channel`index
      ensures Valid() && owned == old(owned) + {channel}
      ensures registry == Apply(old(registry), Update(channel.fd, channel.events))
    {
      channels := channels[channel.fd := channel];
      owned := owned + {channel};
      channel.index := ADDED;
      Add(channel);
      registry := Apply(registry, Update(channel.fd, channel.events));
    }

    method UpdateChannel(channel: Channel)
      requires Valid()
      requires channel.index == NEW ==> channel.fd !in channels
      requires channel.index != NEW ==> channel.fd in channels && channels[channel.fd] == channel
      modifies this, channel`index
      ensures Valid() && owned == old(owned) + {channel}
      ensures registry == Apply(old(registry), Update(channel.fd, channel.events))
    {
      var fd := channel.fd;
      if channel.index == NEW || channel.index == DELETED {
        assert if channel.index == NEW then fd !in channels else fd in channels && channels[fd] == channel;
        AddToKernel(channel);
      } else {
        assert fd in channels && channels[fd] == channel;
        assert channel.index == ADDED;
        if channel.events == NONE_EVENT {
          Delete(channel);
          channel.index := DELETED;
        } else {
          Modify(channel);
        }
        registry := Apply(registry, Update(fd, channel.events));
      }
    }

    method RemoveChannel(channel: Channel)
      requires Valid()
      requires channel.fd in channels && channels[channel.fd] == channel
      requires channel.events == NONE_EVENT
      modifies this, channel`index
      ensures Valid() && channel.index == NEW && owned == old(owned) - {channel}
      ensures registry == Apply(old(registry), Remove(channel.fd))
    {
      var fd := channel.fd;
      assert channel.index == ADDED || channel.index == DELETED;
      channels := channels - {fd};
      owned := owned - {channel};
      if channel.index == ADDED {
        Delete(channel);
      }
      channel.index := NEW;
      registry := Apply(registry, Remove(fd));
    }

    lemma Facts()
      requires Valid()
      ensures channels.Keys == registry.Keys
      ensures forall fd :: fd in channels ==> channels[fd] in owned && channels[fd].fd == fd && channels[fd].index != NEW
      ensures forall c :: c in owned ==> c.fd in channels && channels[c.fd] == c
    {
    }

    /** What the kernel watches is what the registry says. */
    lemma KernelWatches()
      requires Valid()
      ensures Watched(kernel) == Watched(registry)
    {
      forall pair ensures pair in Watched(kernel) <==> pair in Watched(registry) {
      }
    }

    // ---- A channel's own operations, which end in the poller ----

    /** Every registered channel's mask is the one last handed to the poller. */
    ghost predicate Tracking()
      reads this, owned
    {
      Valid() && forall c :: c in owned ==> c.fd in registry && c.events == registry[c.fd]
    }

    method Change(fd: nat, events: Mask)
      requires Tracking() && fd in registry
      modifies this, owned
      ensures Tracking() && owned == old(owned) && registry == Apply(old(registry), Update(fd, events))
    {
      hide Valid;
      Facts();
      var channel := channels[fd];
      channel.events := events;
      UpdateChannel(channel);
    }

    method Register(fd: nat, events: Mask)
      requires Tracking() && fd !in registry
      modifies this
      ensures Tracking() && fresh(owned - old(owned)) && registry == Apply(old(registry), Update(fd, events))
    {
      hide Valid;
      Facts();
      var channel := new Channel(fd);
      channel.events := events;
      UpdateChannel(channel);
    }

    method Unregister(fd: nat)
      requires Tracking() && fd in registry && registry[fd] == NONE_EVENT
      modifies this, owned
      ensures Tracking() && owned <= old(owned) && registry == Apply(old(registry), Remove(fd))
    {
      hide Valid;
      Facts();
      RemoveChannel(channels[fd]);
    }
  }
}

module PollerEquivalence {
  import opened Channels
  import opened PollRegistry
  import opened PollPollers
  import opened EPollPollers

  /** Each poller's channels, distinct objects, stand for the same descriptors under the same
      masks. */
  ghost predicate InStep(p: PollPoller, e: EPollPoller)
    reads p, e, p.owned, e.owned
  {
    p.Tracking() && e.Tracking() && p.registry == e.registry && p.owned !! e.owned
  }

  method Step(p: PollPoller, e: EPollPoller, action: Action)
    requires InStep(p, e) && Legal(p.registry, action)
    modifies p, e, p.owned, e.owned
    ensures InStep(p, e) && p.registry == Apply(old(p.registry), action)
    ensures fresh(p.owned - old(p.owned)) && fresh(e.owned - old(e.owned))
  {
    hide PollPoller.Valid, EPollPoller.Valid;
    p.Facts();
    match action {
      case Update(fd, events) =>
        if fd in p.channels {
          p.Change(fd, events);
          e.Change(fd, events);
        } else {
          p.Register(fd, events);
          e.Register(fd, events);
        }
      case Remove(fd) =>
        p.Unregister(fd);
        e.Unregister(fd);
    }
  }

  /** Driven by the same legal sequence of updates and removals, the two pollers always watch
      the same descriptors under the same masks, namely the registry's. */
  method Drive(actions: seq<Action>) returns (p: PollPoller, e: EPollPoller)
    requires LegalRun(map[], actions)
    ensures fresh(p) && fresh(e) && p.Valid() && e.Valid()
    ensures WatchedBy(p.pollfds) == Watched(Run(map[], actions)) == Watched(e.kernel)
    ensures forall fd, events :: events != NONE_EVENT ==>
              (Lists(p.pollfds, fd, events) <==> Holds(Run(map[], actions), fd, events))
    ensures forall fd, events :: events != NONE_EVENT ==>
              (Holds(e.kernel, fd, events) <==> Holds(Run(map[], actions), fd, events))
  {
    hide PollPoller.Valid, EPollPoller.Valid, LegalRun, Run, Watched, WatchedBy, Lists, Holds;
    p := new PollPoller();
    e := new EPollPoller();
    assert actions[0..] == actions;
    for i := 0 to |actions|
      invariant fresh(p) && fresh(e) && fresh(p.owned) && fresh(e.owned) && InStep(p, e)
      invariant LegalRun(p.registry, actions[i..])
      invariant Run(p.registry, actions[i..]) == Run(map[], actions)
    {
      Unfold(p.registry, actions, i);
      Step(p, e, actions[i]);
    }
    assert actions[|actions|..] == [];
    RunNothing(p.registry);
    p.ArrayWatches();
    e.KernelWatches();
    forall fd, events | events != NONE_EVENT
      ensures Lists(p.pollfds, fd, events) <==> Holds(Run(map[], actions), fd, events)
      ensures Holds(e.kernel, fd, events) <==> Holds(Run(map[], actions), fd, events)
    {
      WatchedBits(p.pollfds, fd, events);
      WatchedMask(Run(map[], actions), fd, events);
      WatchedMask(e.kernel, fd, events);
    }
  }
}
