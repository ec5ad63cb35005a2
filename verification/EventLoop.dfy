/**
 The event loop's own code, run against an environment that interferes between any two of
 its atomic actions, and proved to perform only runs of the wakeup protocol.
 */
module EventLoops {
  import opened WakeupProtocol

  /** What a handler or a functor asks of its own loop. */
  datatype Request = Queue(functor: Functor) | Quit

  /** One return of the poll: whether the wakeup channel is reported when it is readable,
      and what the other channels' handlers ask for before and after it is handled. */
  datatype PollResult = PollResult(reportsWakeup: bool, before: seq<Request>, after: seq<Request>)

  /** The functors that requests ask for, in order. */
  function Functors(requests: seq<Request>): seq<Functor> {
    if requests == [] then []
    else
      var last := requests[|requests| - 1];
      Functors(requests[..|requests| - 1]) + if last.Queue? then [last.functor] else []
  }

  /** What a functor asks of the loop, given the round and its position in it. */
  type Behaviour = (nat, nat, Functor) -> seq<Request>

  /** The functors that the functors of a round ask for. */
  function AskedByFunctors(functors: seq<Functor>, round: nat, behaviour: Behaviour): seq<Functor> {
    if functors == [] then []
    else
      var i := |functors| - 1;
      AskedByFunctors(functors[..i], round, behaviour) + Functors(behaviour(round, i, functors[i]))
  }

  /** The functors that the handlers of a round ask for. */
  function AskedByHandlers(poll: PollResult): seq<Functor> {
    Functors(poll.before) + Functors(poll.after)
  }

  /** The functors asked for in the first `n` rounds, in which `ran` was run. */
  function Asked(polls: seq<PollResult>, ran: seq<seq<Functor>>, behaviour: Behaviour, n: nat): seq<Functor>
    requires n <= |polls| && n <= |ran|
  {
    if n == 0 then []
    else Asked(polls, ran, behaviour, n - 1) + AskedByHandlers(polls[n - 1]) + AskedByFunctors(ran[n - 1], n - 1, behaviour)
  }

  /** To quit is asked for by one of the functors of a round. */
  predicate QuitByFunctors(functors: seq<Functor>, round: nat, behaviour: Behaviour) {
    exists i :: 0 <= i < |functors| && Quit in behaviour(round, i, functors[i])
  }

  /** To quit was asked for in a round. */
  predicate QuitAsked(poll: PollResult, functors: seq<Functor>, round: nat, behaviour: Behaviour) {
    Quit in poll.before || Quit in poll.after || QuitByFunctors(functors, round, behaviour)
  }

  /** All the functors run. */
  function Joined(ran: seq<seq<Functor>>): seq<Functor> {
    if ran == [] then [] else Joined(ran[..|ran| - 1]) + ran[|ran| - 1]
  }

  /** What was asked for stays so when more rounds are run. */
  lemma {:induction false} AskedPrefix(polls: seq<PollResult>, ran: seq<seq<Functor>>, more: seq<Functor>, behaviour: Behaviour, n: nat)
    requires n <= |polls| && n <= |ran|
    ensures Asked(polls, ran + [more], behaviour, n) == Asked(polls, ran, behaviour, n)
  {
    if n > 0 {
      AskedPrefix(polls, ran, more, behaviour, n - 1);
    }
  }

  /** The state after other threads attempted some steps, of which the impossible are skipped. */
  function Interfered(s: State, steps: seq<Step>): State {
    if steps == [] then s
    else
      var t, step := Interfered(s, steps[..|steps| - 1]), steps[|steps| - 1];
      if IsRemote(step) && Enabled(t, step) then Next(t, step) else t
  }

  lemma InterferedMore(s: State, steps: seq<Step>, i: nat)
    requires i < |steps|
    ensures var t := Interfered(s, steps[..i]);
            Interfered(s, steps[..i + 1]) == if IsRemote(steps[i]) && Enabled(t, steps[i]) then Next(t, steps[i]) else t
  {
    hide Enabled, Next;
    assert steps[..i + 1][..i] == steps[..i];
  }

  lemma NotInterfered(s: State, steps: seq<Step>)
    ensures Interfered(s, steps[..0]) == s
  {
  }

  lemma RemoteKeeps(s: State, step: Step)
    requires IsRemote(step) && Enabled(s, step)
    ensures var t := Next(s, step);
            t.phase == s.phase && t.executed == s.executed && s.pushed <= t.pushed && (s.quit ==> t.quit)
  {
  }

  /** All of `a`, as often as it occurs there, is in `b`. */
  predicate Among(a: seq<Functor>, b: seq<Functor>) {
    multiset(a) <= multiset(b)
  }

  /** If a round asked to quit, it was the last one. */
  predicate OnlyLastQuits(quit: bool, polls: seq<PollResult>, ran: seq<seq<Functor>>, behaviour: Behaviour) {
    && |ran| <= |polls|
    && forall r :: 0 <= r < |ran| && QuitAsked(polls[r], ran[r], r, behaviour) ==> r == |ran| - 1 && quit
  }

  lemma QuitsMore(polls: seq<PollResult>, ran: seq<seq<Functor>>, functors: seq<Functor>, quit: bool, behaviour: Behaviour)
    requires OnlyLastQuits(false, polls, ran, behaviour) && |ran| < |polls|
    requires QuitAsked(polls[|ran|], functors, |ran|, behaviour) ==> quit
    ensures OnlyLastQuits(quit, polls, ran + [functors], behaviour)
  {
    hide QuitAsked;
    var ran' := ran + [functors];
    assert forall r :: 0 <= r < |ran| ==> ran'[r] == ran[r];
    assert ran'[|ran|] == functors;
  }

  /** Where a loop is after the rounds that ran `ran`: it has run those; it has queued, beyond
      `earlier`, what was asked for; and it has run all that was asked for before the last
      functors were collected.  Only the last round can have asked to quit. */
  ghost predicate Progress(earlier: seq<Functor>, own: seq<Functor>, s: State,
                           polls: seq<PollResult>, ran: seq<seq<Functor>>, behaviour: Behaviour) {
    var n := |ran|;
    && n <= |polls| && s.executed == Joined(ran)
    && own == earlier + Asked(polls, ran, behaviour, n)
    && (n > 0 ==> Among(Asked(polls, ran, behaviour, n - 1) + AskedByHandlers(polls[n - 1]), s.executed))
    && OnlyLastQuits(s.quit, polls, ran, behaviour)
  }

  /** A functor is asked for as often as requests ask for it. */
  lemma {:induction false} FunctorsAreAsked(requests: seq<Request>, functor: Functor)
    ensures multiset(Functors(requests))[functor] == multiset(requests)[Queue(functor)]
  {
    if requests != [] {
      FunctorsAreAsked(requests[..|requests| - 1], functor);
      assert requests == requests[..|requests| - 1] + [requests[|requests| - 1]];
    }
  }

  lemma AskedForIsIn(requests: seq<Request>, functor: Functor)
    requires Queue(functor) in requests
    ensures functor in Functors(requests)
  {
    FunctorsAreAsked(requests, functor);
    assert functor in multiset(Functors(requests));
  }

  /** A handler of a round asks for the functor. */
  predicate HandlersAsk(poll: PollResult, functor: Functor) {
    Queue(functor) in poll.before || Queue(functor) in poll.after
  }

  /** A functor of a round asks for the functor. */
  predicate FunctorsAsk(functors: seq<Functor>, round: nat, behaviour: Behaviour, functor: Functor) {
    exists i :: 0 <= i < |functors| && Queue(functor) in behaviour(round, i, functors[i])
  }

  lemma {:induction false} FunctorsAskIsIn(functors: seq<Functor>, round: nat, behaviour: Behaviour, functor: Functor)
    requires FunctorsAsk(functors, round, behaviour, functor)
    ensures functor in AskedByFunctors(functors, round, behaviour)
  {
    hide Functors;
    var last := |functors| - 1;
    var i :| 0 <= i < |functors| && Queue(functor) in behaviour(round, i, functors[i]);
    if i == last {
      AskedForIsIn(behaviour(round, i, functors[i]), functor);
    } else {
      assert functors[..last][i] == functors[i];
      FunctorsAskIsIn(functors[..last], round, behaviour, functor);
    }
  }

  lemma {:induction false} AskedHoldsAll(polls: seq<PollResult>, ran: seq<seq<Functor>>, behaviour: Behaviour, n: nat, r: nat, functor: Functor)
    requires r < n <= |polls| && n <= |ran|
    requires HandlersAsk(polls[r], functor) || FunctorsAsk(ran[r], r, behaviour, functor)
    ensures functor in Asked(polls, ran, behaviour, n)
  {
    hide Functors, AskedByFunctors, FunctorsAsk;
    if r < n - 1 {
      AskedHoldsAll(polls, ran, behaviour, n - 1, r, functor);
    } else if FunctorsAsk(ran[r], r, behaviour, functor) {
      FunctorsAskIsIn(ran[r], r, behaviour, functor);
    } else if Queue(functor) in polls[r].before {
      AskedForIsIn(polls[r].before, functor);
    } else {
      AskedForIsIn(polls[r].after, functor);
    }
  }

  lemma AmongHolds(a: seq<Functor>, b: seq<Functor>, functor: Functor)
    requires Among(a, b) && functor in a
    ensures functor in b
  {
    assert functor in multiset(a);
  }

  /** What the handlers of a round ask for has run by the end of it, what its functors ask for
      by the end of the next. */
  lemma ProgressRuns(earlier: seq<Functor>, own: seq<Functor>, s: State,
                     polls: seq<PollResult>, ran: seq<seq<Functor>>, behaviour: Behaviour, r: nat, functor: Functor)
    requires Progress(earlier, own, s, polls, ran, behaviour) && r < |ran|
    requires HandlersAsk(polls[r], functor) || (r < |ran| - 1 && FunctorsAsk(ran[r], r, behaviour, functor))
    ensures functor in s.executed
  {
    hide Functors, AskedByFunctors, FunctorsAsk, Among, QuitAsked;
    var n := |ran|;
    if r < n - 1 {
      AskedHoldsAll(polls, ran, behaviour, n - 1, r, functor);
    } else if Queue(functor) in polls[r].before {
      AskedForIsIn(polls[r].before, functor);
    } else {
      AskedForIsIn(polls[r].after, functor);
    }
    AmongHolds(Asked(polls, ran, behaviour, n - 1) + AskedByHandlers(polls[n - 1]), s.executed, functor);
  }

  lemma ProgressStays(earlier: seq<Functor>, own: seq<Functor>, s: State, t: State,
                      polls: seq<PollResult>, ran: seq<seq<Functor>>, behaviour: Behaviour)
    requires Progress(earlier, own, s, polls, ran, behaviour)
    requires t.executed == s.executed && (s.quit ==> t.quit)
    ensures Progress(earlier, own, t, polls, ran, behaviour)
  {
  }

  lemma ProgressMore(earlier: seq<Functor>, own: seq<Functor>, s: State, own': seq<Functor>, t: State,
                     polls: seq<PollResult>, ran: seq<seq<Functor>>, functors: seq<Functor>, behaviour: Behaviour)
    requires Progress(earlier, own, s, polls, ran, behaviour) && !s.quit && |ran| < |polls|
    requires t.executed == s.executed + functors
    requires Among(own + AskedByHandlers(polls[|ran|]), t.executed)
    requires QuitAsked(polls[|ran|], functors, |ran|, behaviour) ==> t.quit
    requires own' == own + AskedByHandlers(polls[|ran|]) + AskedByFunctors(functors, |ran|, behaviour)
    ensures Progress(earlier, own', t, polls, ran + [functors], behaviour)
  {
    hide Among, Joined, AskedByHandlers, AskedByFunctors, QuitAsked, OnlyLastQuits, Asked;
    var n := |ran|;
    OneMoreRound(polls, ran, functors, behaviour);
    JoinedMore(ran, functors);
    QuitsMore(polls, ran, functors, t.quit, behaviour);
    AskedMore(earlier, own, Asked(polls, ran, behaviour, n), AskedByHandlers(polls[n]), AskedByFunctors(functors, n, behaviour));
  }

  lemma OneMoreRound(polls: seq<PollResult>, ran: seq<seq<Functor>>, functors: seq<Functor>, behaviour: Behaviour)
    requires |ran| < |polls|
    ensures var n := |ran|;
            var asked := Asked(polls, ran, behaviour, n);
            && Asked(polls, ran + [functors], behaviour, n) == asked
            && Asked(polls, ran + [functors], behaviour, n + 1)
            == asked + AskedByHandlers(polls[n]) + AskedByFunctors(functors, n, behaviour)
  {
    hide AskedByHandlers, AskedByFunctors;
    AskedPrefix(polls, ran, functors, behaviour, |ran|);
  }

  lemma JoinedMore(ran: seq<seq<Functor>>, functors: seq<Functor>)
    ensures Joined(ran + [functors]) == Joined(ran) + functors
  {
    assert (ran + [functors])[..|ran|] == ran;
  }

  lemma AskedMore(earlier: seq<Functor>, own: seq<Functor>, asked: seq<Functor>, handled: seq<Functor>, last: seq<Functor>)
    requires own == earlier + asked
    ensures own + handled + last == earlier + (asked + handled + last)
    ensures forall all :: Among(own + handled, all) ==> Among(asked + handled, all)
  {
    assert own + handled == earlier + (asked + handled);
  }

  lemma NoRounds(earlier: seq<Functor>, s: State, polls: seq<PollResult>, behaviour: Behaviour)
    requires s.executed == []
    ensures Progress(earlier, earlier, s, polls, [], behaviour)
  {
  }

  class EventLoop {
    var pendingFunctors: seq<Functor>
    var wakeups: nat
    var quit: bool
    var callingPendingFunctors: bool
    var owing: set<ThreadId>
    var tick: nat
    /** The remote steps attempted at each point where the loop thread can be interrupted. */
    const interference: nat -> seq<Step>
    ghost var state: State
    ghost var trace: seq<Step>

    ghost predicate Valid()
      reads this
    {
      && Reaches(START, trace, state)
      && Inv(state)
      && pendingFunctors == state.pending
      && wakeups == state.wakeups
      && quit == state.quit
      && callingPendingFunctors == state.calling
      && owing == state.owing
    }

    /** Wakeups not read, less all those ever written: this never rises. */
    ghost function Unread(): int
      reads this
    {
      state.wakeups - Wakes(trace)
    }

    constructor (interference: nat -> seq<Step>)
      ensures Valid() && state == START
    {
      this.interference := interference;
      pendingFunctors, wakeups, quit, callingPendingFunctors, owing, tick := [], 0, false, false, {}, 0;
      state, trace := START, [];
    }

    /** Extends the protocol run by one step. */
    ghost method Record(step: Step)
      requires Reaches(START, trace, state) && Inv(state) && Enabled(state, step)
      modifies this`state, this`trace
      ensures Reaches(START, trace, state) && Inv(state)
      ensures state == Next(old(state), step) && trace == old(trace) + [step]
      ensures OwnPushes(trace) == if IsOwnPush(step) then OwnPushes(old(trace)) + [step.functor] else OwnPushes(old(trace))
      ensures Wakes(old(trace)) <= Wakes(trace) && Unread() <= old(Unread())
    {
      OwnPushesMore(trace, step);
      WakesMore(trace, step);
      Extend(START, trace, state, step);
      NextKeepsInv(state, step);
      trace := trace + [step];
      state := Next(state, step);
    }

    method Wakeup()
      modifies this`wakeups
      ensures wakeups == if old(wakeups) < EVENTFD_MAX then old(wakeups) + 1 else old(wakeups)
    {
      if wakeups < EVENTFD_MAX {
        wakeups := wakeups + 1;
      }
    }

    /** One atomic action of a remote thread: the push of `queueInLoop`, the store of `quit`,
        or the wakeup that follows either. */
    method RemoteAction(step: Step)
      requires Valid() && IsRemote(step) && Enabled(state, step)
      modifies this`pendingFunctors, this`wakeups, this`quit, this`owing, this`state, this`trace
      ensures Valid() && state == Next(old(state), step)
      ensures OwnPushes(trace) == OwnPushes(old(trace))
      ensures Wakes(old(trace)) <= Wakes(trace) && Unread() <= old(Unread())
    {
      hide Inv, Reaches, OwnPushes, Wakes;
      Record(step);
      match step {
        case RemotePush(thread, functor) =>
          pendingFunctors := pendingFunctors + [functor];
          owing := owing + {thread};
        case RemoteQuit(thread) =>
          quit := true;
          owing := owing + {thread};
        case RemoteWake(thread) =>
          Wakeup();
          owing := owing - {thread};
      }
    }

    /** Other threads run here; attempts that are not possible are skipped. */
    method Interrupted()
      requires Valid()
      modifies this`pendingFunctors, this`wakeups, this`quit, this`owing, this`tick, this`state, this`trace
      ensures Valid() && state == Interfered(old(state), interference(old(tick))) && tick == old(tick) + 1
      ensures state.phase == old(state.phase) && state.executed == old(state.executed)
      ensures old(state.pushed) <= state.pushed && (old(state.quit) ==> state.quit)
      ensures OwnPushes(trace) == OwnPushes(old(trace))
      ensures Wakes(old(trace)) <= Wakes(trace) && Unread() <= old(Unread())
    {
      hide Inv, Reaches, OwnPushes, Wakes, Next, Interfered;
      var steps := interference(tick);
      assert Interfered(state, steps[..0]) == state by { NotInterfered(state, steps); }
      tick := tick + 1;
      for i := 0 to |steps|
        invariant Valid() && state == Interfered(old(state), steps[..i]) && tick == old(tick) + 1
        invariant state.phase == old(state.phase) && state.executed == old(state.executed)
        invariant old(state.pushed) <= state.pushed && (old(state.quit) ==> state.quit)
        invariant OwnPushes(trace) == OwnPushes(old(trace))
        invariant Wakes(old(trace)) <= Wakes(trace) && Unread() <= old(Unread())
      {
        InterferedMore(old(state), steps, i);
        var possible := match steps[i]
          case RemotePush(thread, _) => thread !in owing
          case RemoteQuit(thread) => thread !in owing
          case RemoteWake(thread) => thread in owing
          case _ => false;
        assert possible <==> IsRemote(steps[i]) && Enabled(state, steps[i]);
        if possible {
          RemoteKeeps(state, steps[i]);
          RemoteAction(steps[i]);
        }
      }
      assert steps[..|steps|] == steps;
    }

    /** `queueInLoop` called in the loop thread. */
    method QueueInLoop(functor: Functor)
      requires Valid() && (state.phase.Handling? || (state.phase.Running? && !state.phase.owes))
      modifies this
      ensures Valid() && state.phase == old(state.phase) && state.executed == old(state.executed)
      ensures old(state.pushed) + [functor] <= state.pushed && (old(state.quit) ==> state.quit)
      ensures OwnPushes(trace) == OwnPushes(old(trace)) + [functor]
      ensures Wakes(old(trace)) <= Wakes(trace) && Unread() <= old(Unread())
    {
      hide Reaches, OwnPushes, Wakes;
      assert callingPendingFunctors == state.phase.Running?;
      pendingFunctors := pendingFunctors + [functor];
      Record(if callingPendingFunctors then FunctorPush(functor) else HandlerPush(functor));
      Interrupted();
      if callingPendingFunctors {
        Record(FunctorWake);
        Wakeup();
      }
    }

    /** `quit` called in the loop thread. */
    method RequestQuit()
      requires Valid() && (state.phase.Handling? || (state.phase.Running? && !state.phase.owes))
      modifies this`quit, this`state, this`trace
      ensures Valid() && state == old(state).(quit := true)
      ensures OwnPushes(trace) == OwnPushes(old(trace))
      ensures Wakes(old(trace)) <= Wakes(trace) && Unread() <= old(Unread())
    {
      hide Reaches, Inv, OwnPushes, Wakes;
      Record(if state.phase.Running? then FunctorQuit else HandlerQuit);
      quit := true;
    }

    /** Does what a handler or functor asks for: its functors are queued, in order. */
    method Serve(requests: seq<Request>)
      requires Valid() && (state.phase.Handling? || (state.phase.Running? && !state.phase.owes))
      modifies this
      ensures Valid() && state.phase == old(state.phase) && state.executed == old(state.executed)
      ensures old(state.pushed) <= state.pushed && (old(state.quit) || Quit in requests ==> state.quit)
      ensures OwnPushes(trace) == OwnPushes(old(trace)) + Functors(requests)
      ensures Wakes(old(trace)) <= Wakes(trace) && Unread() <= old(Unread())
    {
      hide Reaches, Inv, OwnPushes, Wakes;
      for i := 0 to |requests|
        invariant Valid() && state.phase == old(state.phase) && state.executed == old(state.executed)
        invariant old(state.pushed) <= state.pushed && (old(state.quit) || Quit in requests[..i] ==> state.quit)
        invariant OwnPushes(trace) == OwnPushes(old(trace)) + Functors(requests[..i])
        invariant Wakes(old(trace)) <= Wakes(trace) && Unread() <= old(Unread())
      {
        assert requests[..i + 1][..i] == requests[..i];
        Interrupted();
        match requests[i] {
          case Queue(functor) => QueueInLoop(functor);
          case Quit => RequestQuit();
        }
      }
      assert requests[..|requests|] == requests;
    }

    /** Reads the eventfd, which resets its counter. */
    method HandleRead()
      requires Valid() && state.phase == Handling(true)
      modifies this`wakeups, this`state, this`trace
      ensures Valid() && state == old(state).(phase := Handling(false), wakeups := 0)
      ensures OwnPushes(trace) == OwnPushes(old(trace))
      ensures Wakes(old(trace)) <= Wakes(trace) && Unread() <= old(Unread())
    {
      hide Reaches, Inv, OwnPushes, Wakes;
      Record(ReadWakeup);
      wakeups := 0;
    }

    /** Runs one functor, which asks for some of the loop's calls. */
    method RunOne(ghost functor: Functor, ghost rest: seq<Functor>, requests: seq<Request>)
      requires Valid() && state.phase == Running([functor] + rest, false)
      modifies this
      ensures Valid() && state.phase == Running(rest, false) && state.executed == old(state.executed) + [functor]
      ensures old(state.quit) || Quit in requests ==> state.quit
      ensures OwnPushes(trace) == OwnPushes(old(trace)) + Functors(requests)
      ensures Wakes(old(trace)) <= Wakes(trace) && Unread() <= old(Unread())
    {
      hide Reaches, Inv, OwnPushes, Wakes, Functors;
      Interrupted();
      assert ([functor] + rest)[1..] == rest;
      Record(RunFunctor);
      Serve(requests);
    }

    /** Runs functors that were swapped out, each once and in order. */
    method RunAll(functors: seq<Functor>, round: nat, behaviour: Behaviour)
      requires Valid() && state.phase == Running(functors, false)
      modifies this
      ensures Valid() && state.phase == Running([], false) && state.executed == old(state.executed) + functors
      ensures old(state.quit) || QuitByFunctors(functors, round, behaviour) ==> state.quit
      ensures OwnPushes(trace) == OwnPushes(old(trace)) + AskedByFunctors(functors, round, behaviour)
      ensures Wakes(old(trace)) <= Wakes(trace) && Unread() <= old(Unread())
    {
      hide Reaches, Inv, OwnPushes, Wakes, Functors;
      for i := 0 to |functors|
        invariant Valid() && state.phase == Running(functors[i..], false)
        invariant state.executed == old(state.executed) + functors[..i]
        invariant old(state.quit) || (exists k :: 0 <= k < i && Quit in behaviour(round, k, functors[k])) ==> state.quit
        invariant OwnPushes(trace) == OwnPushes(old(trace)) + AskedByFunctors(functors[..i], round, behaviour)
        invariant Wakes(old(trace)) <= Wakes(trace) && Unread() <= old(Unread())
      {
        assert functors[..i + 1][..i] == functors[..i] && functors[..i + 1] == functors[..i] + [functors[i]];
        assert functors[i..] == [functors[i]] + functors[i + 1..];
        RunOne(functors[i], functors[i + 1..], behaviour(round, i, functors[i]));
      }
      assert functors[..|functors|] == functors;
    }

    /** Takes the whole queue at once. */
    method SwapOut() returns (functors: seq<Functor>)
      requires Valid() && state.phase == Handling(false)
      modifies this
      ensures Valid() && state.phase == Running(functors, false) && state.executed == old(state.executed)
      ensures old(state.pushed) <= state.executed + functors && (old(state.quit) ==> state.quit)
      ensures OwnPushes(trace) == OwnPushes(old(trace))
      ensures Wakes(old(trace)) <= Wakes(trace) && Unread() <= old(Unread())
    {
      hide Reaches, Inv, OwnPushes, Wakes;
      Record(HandlersDone);
      callingPendingFunctors := true;
      Interrupted();
      functors := pendingFunctors;
      pendingFunctors := [];
      Record(Swap);
      AllInHand();
    }

    /** Right after the swap everything queued has run or is in hand. */
    lemma AllInHand()
      requires Valid() && state.phase.Running? && state.pending == []
      ensures state.executed + state.phase.functors == state.pushed
    {
    }

    /** Runs what is queued: all that was queued before the call has run when it returns. */
    method DoPendingFunctors(round: nat, behaviour: Behaviour) returns (functors: seq<Functor>)
      requires Valid() && state.phase == Handling(false)
      modifies this
      ensures Valid() && state.phase == AtTest && state.executed == old(state.executed) + functors
      ensures old(state.pushed) <= state.executed
      ensures old(state.quit) || QuitByFunctors(functors, round, behaviour) ==> state.quit
      ensures OwnPushes(trace) == OwnPushes(old(trace)) + AskedByFunctors(functors, round, behaviour)
      ensures Wakes(old(trace)) <= Wakes(trace) && Unread() <= old(Unread())
    {
      hide Reaches, Inv, OwnPushes, Wakes, AskedByFunctors;
      functors := SwapOut();
      RunAll(functors, round, behaviour);
      Interrupted();
      Record(FunctorsDone);
      callingPendingFunctors := false;
    }

    /** What the loop thread asked for is among what was queued. */
    lemma AskedIsQueued()
      requires Valid()
      ensures forall all :: state.pushed <= all ==> Among(OwnPushes(trace), all)
    {
      OwnAmongPushes(trace);
      PushedByPushes(START, trace);
      assert START.pushed + Pushes(trace) == Pushes(trace);
      forall all | state.pushed <= all
        ensures Among(OwnPushes(trace), all)
      {
        assert all == state.pushed + all[|state.pushed|..];
      }
    }

    lemma AtPollSignalled()
      requires Valid() && state.phase == AtPoll
      ensures state.pending != [] || state.quit ==> Signalled(state)
    {
    }

    /** The handlers of an iteration and the functors collected after them.  When the poll
        reports the wakeup, the wakeups unread in the end were written in this iteration. */
    method Iterate(poll: PollResult, round: nat, behaviour: Behaviour) returns (functors: seq<Functor>)
      requires Valid() && state.phase == AtPoll
      modifies this
      ensures Valid() && state.phase == AtTest && state.executed == old(state.executed) + functors
      ensures Among(OwnPushes(old(trace)) + AskedByHandlers(poll), state.executed)
      ensures old(state.quit) || QuitAsked(poll, functors, round, behaviour) ==> state.quit
      ensures poll.reportsWakeup ==> state.wakeups <= Wakes(trace) - Wakes(old(trace))
      ensures OwnPushes(trace) == OwnPushes(old(trace)) + AskedByHandlers(poll) + AskedByFunctors(functors, round, behaviour)
      ensures Wakes(old(trace)) <= Wakes(trace) && Unread() <= old(Unread())
    {
      hide Reaches, Inv, OwnPushes, Wakes, Functors, AskedByFunctors, QuitByFunctors, Signalled, Among;
      Interrupted();
      AtPollSignalled();
      assert pendingFunctors != [] || quit ==> Signalled(state);
      var wakeupReady := poll.reportsWakeup && wakeups > 0;
      Record(PollReturn(wakeupReady));
      Serve(poll.before);
      if wakeupReady {
        HandleRead();
      }
      Serve(poll.after);
      assert OwnPushes(trace) == OwnPushes(old(trace)) + AskedByHandlers(poll) by {
        JoinLast(OwnPushes(old(trace)), Functors(poll.before), Functors(poll.after));
      }
      AskedIsQueued();
      functors := DoPendingFunctors(round, behaviour);
    }

    lemma JoinLast(a: seq<Functor>, b: seq<Functor>, c: seq<Functor>)
      ensures a + b + c == a + (b + c)
    {
    }

    method Round(ghost earlier: seq<Functor>, polls: seq<PollResult>, ran: seq<seq<Functor>>, behaviour: Behaviour)
        returns (ran': seq<seq<Functor>>)
      requires Valid() && state.phase == AtTest && !quit && |ran| < |polls|
      requires Progress(earlier, OwnPushes(trace), state, polls, ran, behaviour)
      modifies this
      ensures Valid() && state.phase == AtTest && |ran'| == |ran| + 1
      ensures Progress(earlier, OwnPushes(trace), state, polls, ran', behaviour)
    {
      hide Reaches, Inv, OwnPushes, Wakes, Asked, AskedByHandlers, AskedByFunctors, QuitAsked, Progress, Among;
      ghost var before, own := state, OwnPushes(trace);
      Record(Test);
      var functors := Iterate(polls[|ran|], |ran|, behaviour);
      ProgressMore(earlier, own, before, OwnPushes(trace), state, polls, ran, functors, behaviour);
      ran' := ran + [functors];
      ghost var after := state;
      Interrupted();
      ProgressStays(earlier, OwnPushes(trace), after, state, polls, ran', behaviour);
    }

    /** `loop()`, observed for the given number of iterations at most.  All it ever does is a
        run of the protocol, so that no wakeup is lost, and it stops exactly when asked to.
        What its handlers and functors ask for is queued, in order; all that was asked for
        before the functors of the last iteration were collected has run. */
    method Loop(polls: seq<PollResult>, behaviour: Behaviour) returns (rounds: nat, ran: seq<seq<Functor>>)
      requires Valid() && state == START
      modifies this
      ensures Valid()
      ensures rounds == |ran| <= |polls|
      ensures rounds < |polls| ==> state.phase == Stopped && quit
      ensures quit ==> state.phase == Stopped
      ensures state.executed <= state.pushed
      ensures Progress(OwnPushes(old(trace)), OwnPushes(trace), state, polls, ran, behaviour)
      ensures forall r, functor :: 0 <= r < rounds && HandlersAsk(polls[r], functor) ==> functor in state.executed
      ensures forall r, functor :: 0 <= r < rounds - 1 && FunctorsAsk(ran[r], r, behaviour, functor) ==> functor in state.executed
    {
      hide Reaches, Inv, OwnPushes, Wakes, AskedByHandlers, AskedByFunctors, QuitAsked, Progress;
      rounds, ran := 0, [];
      ghost var earlier := OwnPushes(trace);
      Interrupted();
      assert Progress(earlier, OwnPushes(trace), state, polls, ran, behaviour) by { NoRounds(earlier, state, polls, behaviour); }
      while !quit && rounds < |polls|
        invariant Valid() && state.phase == AtTest && rounds == |ran| <= |polls|
        invariant Progress(earlier, OwnPushes(trace), state, polls, ran, behaviour)
        decreases |polls| - rounds
      {
        ran := Round(earlier, polls, ran, behaviour);
        rounds := rounds + 1;
      }
      if quit {
        ghost var after := state;
        Record(Test);
        ProgressStays(earlier, OwnPushes(trace), after, state, polls, ran, behaviour);
      }
      RanIsQueued();
      hide HandlersAsk, FunctorsAsk;
      forall r, functor | 0 <= r < rounds && (HandlersAsk(polls[r], functor) || (r < rounds - 1 && FunctorsAsk(ran[r], r, behaviour, functor)))
        ensures functor in state.executed
      {
        ProgressRuns(earlier, OwnPushes(trace), state, polls, ran, behaviour, r, functor);
      }
    }

    lemma RanIsQueued()
      requires Valid()
      ensures state.executed <= state.pushed
    {
    }
  }
}
