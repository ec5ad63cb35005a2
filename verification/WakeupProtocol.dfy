/**
 The wakeup protocol of the event loop as a state machine over its atomic steps.

 One loop thread polls, handles events, swaps out the queue of pending functors and runs
 them.  Any number of remote threads push functors or ask the loop to quit, and then write
 to an eventfd to interrupt the poll.  A step is what happens under the queue's mutex, one
 access to an atomic flag, or one system call; steps interleave in every possible way.
 */
module WakeupProtocol {

  type ThreadId = nat
  type Functor = nat

  /** The eventfd counter never passes this value; a write that would is refused. */
  const EVENTFD_MAX: nat := 0xFFFF_FFFF_FFFF_FFFE

  datatype Phase =
    | AtTest                                          // about to test `quit_`
    | AtPoll                                          // in, or about to enter, the poll
    | Handling(readPending: bool)                     // running event handlers; wakeup channel still to be read?
    | Collecting                                      // `callingPendingFunctors_` set, queue not swapped out yet
    | Running(functors: seq<Functor>, owes: bool)     // running functors; own wakeup still to be written?
    | Stopped

  datatype State = State(
    phase: Phase,
    pending: seq<Functor>,
    wakeups: nat,            // the eventfd counter
    quit: bool,
    calling: bool,           // `callingPendingFunctors_`
    owing: set<ThreadId>,    // remote threads between their push or quit and their wakeup
    pushed: seq<Functor>,    // history: everything ever queued
    executed: seq<Functor>,  // history: everything ever run
    swept: nat               // history: how much had been queued when the last poll returned
  )

  datatype Step =
    | RemotePush(thread: ThreadId, functor: Functor)
    | RemoteQuit(thread: ThreadId)
    | RemoteWake(thread: ThreadId)
    | Test
    | PollReturn(wakeupReady: bool)
    | ReadWakeup
    | HandlerPush(functor: Functor)
    | HandlerQuit
    | HandlersDone
    | Swap
    | RunFunctor
    | FunctorPush(functor: Functor)
    | FunctorWake
    | FunctorQuit
    | FunctorsDone

  /** `loop()` entered with an empty queue and no quit outstanding. */
  const START := State(AtTest, [], 0, false, false, {}, [], [], 0)

  predicate IsRemote(step: Step) {
    step.RemotePush? || step.RemoteQuit? || step.RemoteWake?
  }

  predicate Enabled(s: State, step: Step) {
    match step
    case RemotePush(thread, _) => thread !in s.owing
    case RemoteQuit(thread) => thread !in s.owing
    case RemoteWake(thread) => thread in s.owing
    case Test => s.phase == AtTest
    case PollReturn(wakeupReady) => s.phase == AtPoll && (wakeupReady ==> s.wakeups > 0)
    case ReadWakeup => s.phase == Handling(true)
    case HandlerPush(_) => s.phase.Handling?
    case HandlerQuit => s.phase.Handling?
    case HandlersDone => s.phase == Handling(false)
    case Swap => s.phase == Collecting
    case RunFunctor => s.phase.Running? && !s.phase.owes && s.phase.functors != []
    case FunctorPush(_) => s.phase.Running? && !s.phase.owes
    case FunctorWake => s.phase.Running? && s.phase.owes
    case FunctorQuit => s.phase.Running? && !s.phase.owes
    case FunctorsDone => s.phase == Running([], false)
  }

  function Push(s: State, functor: Functor): State {
    s.(pending := s.pending + [functor], pushed := s.pushed + [functor])
  }

  function Wake(s: State): State {
    if s.wakeups < EVENTFD_MAX then s.(wakeups := s.wakeups + 1) else s
  }

  function Next(s: State, step: Step): State
    requires Enabled(s, step)
  {
    match step
    case RemotePush(thread, functor) => Push(s, functor).(owing := s.owing + {thread})
    case RemoteQuit(thread) => s.(quit := true, owing := s.owing + {thread})
    case RemoteWake(thread) => Wake(s).(owing := s.owing - {thread})
    case Test => s.(phase := if s.quit then Stopped else AtPoll)
    case PollReturn(wakeupReady) => s.(phase := Handling(wakeupReady), swept := |s.pushed|)
    case ReadWakeup => s.(phase := Handling(false), wakeups := 0)
    case HandlerPush(functor) => Push(s, functor)
    case HandlerQuit => s.(quit := true)
    case HandlersDone => s.(phase := Collecting, calling := true)
    case Swap => s.(phase := Running(s.pending, false), pending := [])
    case RunFunctor => s.(phase := Running(s.phase.functors[1..], false), executed := s.executed + [s.phase.functors[0]])
    case FunctorPush(functor) => Push(s, functor).(phase := Running(s.phase.functors, true))
    case FunctorWake => Wake(s).(phase := Running(s.phase.functors, false))
    case FunctorQuit => s.(quit := true)
    case FunctorsDone => s.(phase := AtTest, calling := false)
  }

  predicate ValidRun(s: State, steps: seq<Step>)
    decreases steps
  {
    steps != [] ==> Enabled(s, steps[0]) && ValidRun(Next(s, steps[0]), steps[1..])
  }

  function Run(s: State, steps: seq<Step>): State
    requires ValidRun(s, steps)
    decreases steps
  {
    if steps == [] then s else Run(Next(s, steps[0]), steps[1..])
  }

  /** The next poll returns at once, or a remote thread is about to make it so. */
  predicate Signalled(s: State) {
    s.wakeups > 0 || s.owing != {}
  }

  function InHand(s: State): seq<Functor> {
    if s.phase.Running? then s.phase.functors else []
  }

  /** Everything queued has run, is in hand or is still queued, in order. */
  predicate HistoryInv(s: State) {
    s.pushed == s.executed + InHand(s) + s.pending
  }

  /** Whoever leaves something to do sees to it that the poll is interrupted. */
  predicate SignalInv(s: State) {
    && (s.calling <==> s.phase.Collecting? || s.phase.Running?)
    && (s.pending != [] ==>
          Signalled(s) || s.phase.Handling? || s.phase.Collecting? || (s.phase.Running? && s.phase.owes))
    && (s.phase.Running? && s.phase.owes ==> s.pending != [])
    && (s.quit && s.phase == AtPoll ==> Signalled(s))
  }

  /** An iteration catches up with what was queued when its poll returned. */
  predicate SweepInv(s: State) {
    && s.swept <= |s.pushed|
    && (s.phase.Running? ==> s.swept <= |s.executed| + |s.phase.functors|)
    && (s.phase.AtTest? || s.phase.AtPoll? || s.phase.Stopped? ==> s.swept <= |s.executed|)
  }

  predicate Inv(s: State) {
    HistoryInv(s) && SignalInv(s) && SweepInv(s)
  }

  lemma HistoryKept(s: State, step: Step)
    requires HistoryInv(s) && Enabled(s, step)
    ensures HistoryInv(Next(s, step))
  {
    match step {
      case RunFunctor => RunKeepsHistory(s);
      case RemotePush(_, functor) => PushKeepsHistory(s, functor);
      case HandlerPush(functor) => PushKeepsHistory(s, functor);
      case FunctorPush(functor) => PushKeepsHistory(s, functor);
      case Swap => assert s.executed + [] + s.pending == s.executed + s.pending + [];
      case _ =>
    }
  }

  lemma PushKeepsHistory(s: State, functor: Functor)
    requires HistoryInv(s)
    ensures s.pushed + [functor] == s.executed + InHand(s) + (s.pending + [functor])
  {
  }

  lemma RunKeepsHistory(s: State)
    requires HistoryInv(s) && s.phase.Running? && s.phase.functors != []
    ensures s.pushed == s.executed + [s.phase.functors[0]] + s.phase.functors[1..] + s.pending
  {
    assert s.phase.functors == [s.phase.functors[0]] + s.phase.functors[1..];
  }

  lemma SignalKept(s: State, step: Step)
    requires SignalInv(s) && Enabled(s, step)
    ensures SignalInv(Next(s, step))
  {
  }

  lemma SweepKept(s: State, step: Step)
    requires HistoryInv(s) && SignalInv(s) && SweepInv(s) && Enabled(s, step)
    ensures SweepInv(Next(s, step))
  {
    HistoryLengths(s);
  }

  lemma HistoryLengths(s: State)
    requires HistoryInv(s)
    ensures |s.pushed| == |s.executed| + |InHand(s)| + |s.pending|
  {
  }

  lemma NextKeepsInv(s: State, step: Step)
    requires Inv(s) && Enabled(s, step)
    ensures Inv(Next(s, step))
  {
    hide HistoryInv, SignalInv, SweepInv, Enabled, Next;
    HistoryKept(s, step);
    SignalKept(s, step);
    SweepKept(s, step);
  }

  lemma {:induction false} RunKeepsInv(s: State, steps: seq<Step>)
    requires Inv(s) && ValidRun(s, steps)
    ensures Inv(Run(s, steps))
    decreases steps
  {
    if steps != [] {
      NextKeepsInv(s, steps[0]);
      RunKeepsInv(Next(s, steps[0]), steps[1..]);
    }
  }

  /** No lost wakeup: under every interleaving, a loop at its poll with something queued, or
      with a quit requested, is about to be interrupted. */
  lemma NoLostWakeup(steps: seq<Step>)
    requires ValidRun(START, steps)
    ensures var s := Run(START, steps);
            s.phase == AtPoll && (s.pending != [] || s.quit) ==>
              s.owing != {} || Enabled(s, PollReturn(true))
  {
    RunKeepsInv(START, steps);
  }

  /** Functors run once each and in the order in which they were queued; whatever has not
      run is in hand or still queued. */
  lemma ExactlyOnceInOrder(steps: seq<Step>)
    requires ValidRun(START, steps)
    ensures var s := Run(START, steps);
            && s.executed <= s.pushed
            && s.pushed[|s.executed|..] == InHand(s) + s.pending
  {
    RunKeepsInv(START, steps);
    var s := Run(START, steps);
    assert s.pushed == s.executed + (InHand(s) + s.pending);
  }

  lemma {:induction false} HistoryGrows(s: State, steps: seq<Step>)
    requires ValidRun(s, steps)
    ensures s.pushed <= Run(s, steps).pushed && s.executed <= Run(s, steps).executed
    ensures s.quit ==> Run(s, steps).quit
    decreases steps
  {
    if steps != [] {
      HistoryGrows(Next(s, steps[0]), steps[1..]);
    }
  }

  /** What the runs of an iteration must have caught up with. */
  lemma {:induction false} SweptAfterPoll(s: State, steps: seq<Step>, target: nat)
    requires Inv(s) && ValidRun(s, steps)
    requires (s.phase == AtPoll && target <= |s.pushed|) || target <= s.swept
    ensures Run(s, steps).phase == AtPoll || target <= Run(s, steps).swept
    decreases steps
  {
    if steps != [] {
      NextKeepsInv(s, steps[0]);
      SweptAfterPoll(Next(s, steps[0]), steps[1..], target);
    }
  }

  /** Everything queued while the loop is at its poll has run by the time it is back at the
      loop test, whatever happens in between. */
  lemma RunsWithinOneIteration(before: seq<Step>, after: seq<Step>)
    requires ValidRun(START, before) && ValidRun(Run(START, before), after)
    ensures var s := Run(START, before);
            var t := Run(s, after);
            s.phase == AtPoll && (t.phase == AtTest || t.phase == Stopped) ==> s.pushed <= t.executed
  {
    var s := Run(START, before);
    var t := Run(s, after);
    RunKeepsInv(START, before);
    RunKeepsInv(s, after);
    HistoryGrows(s, after);
    if s.phase == AtPoll && (t.phase == AtTest || t.phase == Stopped) {
      SweptAfterPoll(s, after, |s.pushed|);
      assert s.pushed <= t.pushed && t.executed <= t.pushed && |s.pushed| <= |t.executed|;
    }
  }

  // ---- The histories are those of the steps ----

  predicate IsOwnPush(step: Step) {
    step.HandlerPush? || step.FunctorPush?
  }

  /** The functors that the steps queue, in order. */
  function Pushes(steps: seq<Step>): seq<Functor>
    decreases steps
  {
    if steps == [] then []
    else (if steps[0].RemotePush? || IsOwnPush(steps[0]) then [steps[0].functor] else []) + Pushes(steps[1..])
  }

  /** Those among them that the loop thread queues. */
  function OwnPushes(steps: seq<Step>): seq<Functor> {
    if steps == [] then []
    else OwnPushes(steps[..|steps| - 1]) + if IsOwnPush(steps[|steps| - 1]) then [steps[|steps| - 1].functor] else []
  }

  lemma OwnPushesMore(steps: seq<Step>, step: Step)
    ensures OwnPushes(steps + [step]) == if IsOwnPush(step) then OwnPushes(steps) + [step.functor] else OwnPushes(steps)
  {
    assert (steps + [step])[..|steps|] == steps;
  }

  lemma {:induction false} PushesMore(steps: seq<Step>, step: Step)
    ensures Pushes(steps + [step]) == Pushes(steps) + if step.RemotePush? || IsOwnPush(step) then [step.functor] else []
    decreases steps
  {
    if steps == [] {
      assert steps + [step] == [step] && [step][1..] == [];
    } else {
      var all := steps + [step];
      assert all[1..] == steps[1..] + [step] && all[0] == steps[0];
      PushesMore(steps[1..], step);
      hide IsOwnPush;
    }
  }

  /** What the loop thread queues is among what is queued. */
  lemma {:induction false} OwnAmongPushes(steps: seq<Step>)
    ensures multiset(OwnPushes(steps)) <= multiset(Pushes(steps))
  {
    if steps != [] {
      var front := steps[..|steps| - 1];
      OwnAmongPushes(front);
      PushesMore(front, steps[|steps| - 1]);
      assert steps == front + [steps[|steps| - 1]];
    }
  }

  /** How often the eventfd was written to. */
  function Wakes(steps: seq<Step>): nat {
    if steps == [] then 0
    else Wakes(steps[..|steps| - 1]) + if steps[|steps| - 1].RemoteWake? || steps[|steps| - 1].FunctorWake? then 1 else 0
  }

  lemma WakesMore(steps: seq<Step>, step: Step)
    ensures Wakes(steps + [step]) == Wakes(steps) + if step.RemoteWake? || step.FunctorWake? then 1 else 0
  {
    assert (steps + [step])[..|steps|] == steps;
  }

  predicate IsQuit(step: Step) {
    step.RemoteQuit? || step.HandlerQuit? || step.FunctorQuit?
  }

  /** What was queued is what the pushes queued, in order, by whatever thread; to quit was
      requested if and only if some step requested it. */
  lemma {:induction false} PushedByPushes(s: State, steps: seq<Step>)
    requires ValidRun(s, steps)
    ensures Run(s, steps).pushed == s.pushed + Pushes(steps)
    ensures Run(s, steps).quit <==> s.quit || exists i :: 0 <= i < |steps| && IsQuit(steps[i])
    decreases steps
  {
    if steps != [] {
      var t := Next(s, steps[0]);
      PushedByPushes(t, steps[1..]);
      hide ValidRun;
      if i :| 0 <= i < |steps| && IsQuit(steps[i]) && i != 0 {
        assert IsQuit(steps[1..][i - 1]);
      }
    }
  }

  function Polls(steps: seq<Step>): nat {
    if steps == [] then 0 else (if steps[0].PollReturn? then 1 else 0) + Polls(steps[1..])
  }

  /** Once quit is requested the loop polls at most once more, and not at all unless it is
      already at its poll. */
  lemma {:induction false} QuitWithinOnePoll(s: State, steps: seq<Step>)
    requires s.quit && ValidRun(s, steps)
    ensures Polls(steps) <= if s.phase == AtPoll then 1 else 0
    decreases steps
  {
    if steps != [] {
      QuitWithinOnePoll(Next(s, steps[0]), steps[1..]);
    }
  }

  lemma {:induction false} RunConcat(s: State, a: seq<Step>, b: seq<Step>)
    requires ValidRun(s, a) && ValidRun(Run(s, a), b)
    ensures ValidRun(s, a + b) && Run(s, a + b) == Run(Run(s, a), b)
    decreases a
  {
    if a == [] {
      assert a + b == b;
    } else {
      assert (a + b)[1..] == a[1..] + b;
      RunConcat(Next(s, a[0]), a[1..], b);
    }
  }

  ghost predicate Reaches(s: State, steps: seq<Step>, t: State) {
    ValidRun(s, steps) && Run(s, steps) == t
  }

  lemma Extend(s: State, steps: seq<Step>, t: State, step: Step)
    requires Reaches(s, steps, t) && Enabled(t, step)
    ensures Reaches(s, steps + [step], Next(t, step))
  {
    var u := Next(t, step);
    assert [step][1..] == [];
    assert ValidRun(u, []) && Run(u, []) == u;
    assert ValidRun(t, [step]);
    RunConcat(s, steps, [step]);
  }

  /** A state in which a functor has queued another one and nothing but the loop thread's own
      wakeup would interrupt the next poll. */
  predicate DependsOnOwnWakeup(s: State) {
    s.phase == Running([], true) && s.pending != [] && !Signalled(s)
  }

  lemma FunctorCollected() returns (steps: seq<Step>, s: State)
    ensures Reaches(START, steps, s)
    ensures s == START.(phase := Running([5], false), calling := true, pushed := [5], swept := 1)
  {
    hide Reaches, Inv;
    StartReaches();
    steps, s := Take([], START, RemotePush(1, 5), START.(pending := [5], pushed := [5], owing := {1}));
    steps, s := Take(steps, s, RemoteWake(1), s.(owing := {}, wakeups := 1));
    steps, s := Take(steps, s, Test, s.(phase := AtPoll));
    steps, s := Take(steps, s, PollReturn(true), s.(phase := Handling(true), swept := 1));
    steps, s := Take(steps, s, ReadWakeup, s.(phase := Handling(false), wakeups := 0));
    steps, s := Take(steps, s, HandlersDone, s.(phase := Collecting, calling := true));
    steps, s := Take(steps, s, Swap, s.(phase := Running([5], false), pending := []));
  }

  /** The loop thread's own wakeup is not redundant. */
  lemma OwnWakeupIsNeeded()
    ensures exists steps, s :: Reaches(START, steps, s) && DependsOnOwnWakeup(s)
  {
    hide Reaches, Inv;
    var steps, s := FunctorCollected();
    assert [5][1..] == [] && [] + [5] == [5] && [5] + [7] == [5, 7];
    steps, s := Take(steps, s, RunFunctor, s.(phase := Running([], false), executed := [5]));
    steps, s := Take(steps, s, FunctorPush(7), s.(phase := Running([], true), pending := [7], pushed := [5, 7]));
    assert DependsOnOwnWakeup(s);
  }

  lemma StartReaches()
    ensures Reaches(START, [], START)
  {
  }

  lemma Take(steps: seq<Step>, s: State, step: Step, expected: State) returns (more: seq<Step>, t: State)
    requires Reaches(START, steps, s) && Enabled(s, step) && Next(s, step) == expected
    ensures Reaches(START, more, t) && t == expected
  {
    Extend(START, steps, s, step);
    more, t := steps + [step], expected;
  }
}
