/**
 The monitor behind `BoundedBlockingQueue` and `ThreadPool`: one mutex, a queue, and two
 condition variables.

 A step is what a thread does between acquiring the mutex and releasing it, by returning or
 by waiting.  A notification moves one waiting thread, of the scheduler's choice, to those
 that will test again; threads may also wake for no reason, and a thread that never waited
 may get the mutex before one that was woken.
 */
module BlockingQueues {
  import opened Wrappers

  type ThreadId = nat

  datatype State<T> = State(
    limit: Option<nat>,         // `None`: the queue of a thread pool without a maximum
    running: bool,              // always true for a `BoundedBlockingQueue`
    queue: seq<T>,
    waitingPut: set<ThreadId>,  // in `notFull_.wait()`, not woken
    wokenPut: set<ThreadId>,    // woken, about to test again
    waitingTake: set<ThreadId>, // the same for `notEmpty_`
    wokenTake: set<ThreadId>,
    items: map<ThreadId, T>,    // what each blocked producer is putting
    put: seq<T>,                // history, and whose it is
    taken: seq<T>,
    putBy: seq<ThreadId>,
    takenBy: seq<ThreadId>
  )

  function Start<T>(limit: Option<nat>): State<T> {
    State(limit, true, [], {}, {}, {}, {}, map[], [], [], [], [])
  }

  /** `wake` is the thread a notification reaches, if any waits. */
  datatype Step<T> =
    | Put(t: ThreadId, x: T, wake: Option<ThreadId>)
    | RetryPut(t: ThreadId, wake: Option<ThreadId>)
    | Take(t: ThreadId, wake: Option<ThreadId>)
    | RetryTake(t: ThreadId, wake: Option<ThreadId>)
    | Spurious(t: ThreadId)
    | Stop

  predicate Full<T>(s: State<T>) {
    s.limit.Some? && |s.queue| >= s.limit.value
  }

  predicate Blocked<T>(s: State<T>, t: ThreadId) {
    t in s.waitingPut || t in s.wokenPut || t in s.waitingTake || t in s.wokenTake
  }

  predicate Reaches(waiting: set<ThreadId>, wake: Option<ThreadId>) {
    if waiting == {} then wake.None? else wake.Some? && wake.value in waiting
  }

  predicate Enabled<T>(s: State<T>, step: Step<T>) {
    match step
    case Put(t, _, wake) => !Blocked(s, t) && Reaches(s.waitingTake, wake)
    case RetryPut(t, wake) => t in s.wokenPut && t in s.items && Reaches(s.waitingTake, wake)
    case Take(t, wake) => !Blocked(s, t) && Reaches(s.waitingPut, wake)
    case RetryTake(t, wake) => t in s.wokenTake && Reaches(s.waitingPut, wake)
    case Spurious(t) => t in s.waitingPut || t in s.waitingTake
    case Stop => true
  }

  function Enqueue<T>(s: State<T>, t: ThreadId, x: T, wake: Option<ThreadId>): State<T> {
    var s1 := s.(queue := s.queue + [x], put := s.put + [x], putBy := s.putBy + [t]);
    if wake.Some? then s1.(waitingTake := s.waitingTake - {wake.value}, wokenTake := s.wokenTake + {wake.value}) else s1
  }

  function Dequeue<T>(s: State<T>, t: ThreadId, wake: Option<ThreadId>): State<T>
    requires s.queue != []
  {
    var s1 := s.(queue := s.queue[1..], taken := s.taken + [s.queue[0]], takenBy := s.takenBy + [t]);
    if s.limit.Some? && wake.Some?
    then s1.(waitingPut := s.waitingPut - {wake.value}, wokenPut := s.wokenPut + {wake.value}) else s1
  }

  /** One pass of a producer through the loop, and of a consumer. */
  function PutPass<T>(s: State<T>, t: ThreadId, x: T, wake: Option<ThreadId>): State<T> {
    if Full(s) then s.(waitingPut := s.waitingPut + {t}, items := s.items[t := x]) else Enqueue(s, t, x, wake)
  }

  function TakePass<T>(s: State<T>, t: ThreadId, wake: Option<ThreadId>): State<T> {
    if s.queue != [] then Dequeue(s, t, wake)
    else if s.running then s.(waitingTake := s.waitingTake + {t})
    else s
  }

  function Next<T>(s: State<T>, step: Step<T>): State<T>
    requires Enabled(s, step)
  {
    match step
    case Put(t, x, wake) => PutPass(s, t, x, wake)
    case RetryPut(t, wake) => PutPass(s.(wokenPut := s.wokenPut - {t}), t, s.items[t], wake)
    case Take(t, wake) => TakePass(s, t, wake)
    case RetryTake(t, wake) => TakePass(s.(wokenTake := s.wokenTake - {t}), t, wake)
    case Spurious(t) =>
      if t in s.waitingPut then s.(waitingPut := s.waitingPut - {t}, wokenPut := s.wokenPut + {t})
      else s.(waitingTake := s.waitingTake - {t}, wokenTake := s.wokenTake + {t})
    case Stop => s.(running := false, waitingTake := {}, wokenTake := s.wokenTake + s.waitingTake)
  }

  // ---- The invariant ----

  /** Items come out once and in order, and there are never too many. */
  predicate OrderInv<T(==)>(s: State<T>) {
    && s.put == s.taken + s.queue && |s.putBy| == |s.put| && |s.takenBy| == |s.taken|
    && (s.limit.Some? ==> |s.queue| <= s.limit.value)
  }

  /** While a thread waits unwoken, no more items (free slots) are there than woken threads
      still to test for them. */
  predicate WakeInv<T>(s: State<T>) {
    && (s.waitingTake != {} ==> s.running && |s.queue| <= |s.wokenTake|)
    && (s.waitingPut != {} ==> s.limit.Some? && s.limit.value - |s.queue| <= |s.wokenPut|)
  }

  predicate ThreadsInv<T>(s: State<T>) {
    && (forall t :: t in s.waitingPut ==> t !in s.wokenPut && t !in s.waitingTake && t !in s.wokenTake)
    && (forall t :: t in s.wokenPut ==> t !in s.waitingTake && t !in s.wokenTake)
    && (forall t :: t in s.waitingTake ==> t !in s.wokenTake)
    && s.waitingPut <= s.items.Keys && s.wokenPut <= s.items.Keys
  }

  ghost predicate Inv<T>(s: State<T>) {
    OrderInv(s) && WakeInv(s) && ThreadsInv(s)
  }

  lemma OneMoreThread(threads: set<ThreadId>, t: ThreadId)
    requires t !in threads
    ensures |threads + {t}| == |threads| + 1
  {
  }

  lemma PutKeepsThreads<T>(s: State<T>, t: ThreadId, x: T, wake: Option<ThreadId>)
    requires ThreadsInv(s) && !Blocked(s, t) && Reaches(s.waitingTake, wake)
    ensures ThreadsInv(PutPass(s, t, x, wake))
  {
  }

  lemma PutKeepsWake<T>(s: State<T>, t: ThreadId, x: T, wake: Option<ThreadId>)
    requires ThreadsInv(s) && Reaches(s.waitingTake, wake)
    requires s.waitingTake != {} ==> s.running && |s.queue| <= |s.wokenTake|
    requires s.waitingPut != {} ==> s.limit.Some? && s.limit.value - |s.queue| <= |s.wokenPut| + 1
    ensures WakeInv(PutPass(s, t, x, wake))
  {
    if wake.Some? {
      OneMoreThread(s.wokenTake, wake.value);
    }
  }

  /** A pass of a producer, who may have been counted among the woken ones until now. */
  lemma PutKeepsInv<T>(s: State<T>, t: ThreadId, x: T, wake: Option<ThreadId>)
    requires OrderInv(s) && ThreadsInv(s) && !Blocked(s, t) && Reaches(s.waitingTake, wake)
    requires s.waitingTake != {} ==> s.running && |s.queue| <= |s.wokenTake|
    requires s.waitingPut != {} ==> s.limit.Some? && s.limit.value - |s.queue| <= |s.wokenPut| + 1
    ensures Inv(PutPass(s, t, x, wake))
  {
    hide ThreadsInv, WakeInv, Blocked, Reaches;
    PutKeepsThreads(s, t, x, wake);
    PutKeepsWake(s, t, x, wake);
  }

  lemma TakeKeepsThreads<T>(s: State<T>, t: ThreadId, wake: Option<ThreadId>)
    requires ThreadsInv(s) && !Blocked(s, t) && Reaches(s.waitingPut, wake)
    ensures ThreadsInv(TakePass(s, t, wake))
  {
  }

  lemma TakeKeepsWake<T>(s: State<T>, t: ThreadId, wake: Option<ThreadId>)
    requires ThreadsInv(s) && Reaches(s.waitingPut, wake)
    requires s.waitingTake != {} ==> s.running && |s.queue| <= |s.wokenTake| + 1
    requires s.waitingPut != {} ==> s.limit.Some? && s.limit.value - |s.queue| <= |s.wokenPut|
    ensures WakeInv(TakePass(s, t, wake))
  {
    if wake.Some? {
      OneMoreThread(s.wokenPut, wake.value);
    }
  }

  lemma TakeKeepsOrder<T>(s: State<T>, t: ThreadId, wake: Option<ThreadId>)
    requires OrderInv(s)
    ensures OrderInv(TakePass(s, t, wake))
  {
    if s.queue != [] {
      assert s.taken + s.queue == s.taken + [s.queue[0]] + s.queue[1..];
    }
  }

  /** A pass of a consumer. */
  lemma TakeKeepsInv<T>(s: State<T>, t: ThreadId, wake: Option<ThreadId>)
    requires OrderInv(s) && ThreadsInv(s) && !Blocked(s, t) && Reaches(s.waitingPut, wake)
    requires s.waitingTake != {} ==> s.running && |s.queue| <= |s.wokenTake| + 1
    requires s.waitingPut != {} ==> s.limit.Some? && s.limit.value - |s.queue| <= |s.wokenPut|
    ensures Inv(TakePass(s, t, wake))
  {
    hide OrderInv, ThreadsInv, WakeInv, Blocked, Reaches, TakePass;
    TakeKeepsThreads(s, t, wake);
    TakeKeepsWake(s, t, wake);
    TakeKeepsOrder(s, t, wake);
  }

  lemma SchedulerKeepsInv<T>(s: State<T>, step: Step<T>)
    requires Inv(s) && Enabled(s, step) && (step.Spurious? || step.Stop?)
    ensures Inv(Next(s, step))
  {
  }

  lemma OneThreadLess(threads: set<ThreadId>, t: ThreadId)
    requires t in threads
    ensures |threads - {t}| == |threads| - 1
  {
  }

  lemma RetryPutKeepsInv<T>(s: State<T>, t: ThreadId, wake: Option<ThreadId>)
    requires Inv(s) && Enabled(s, RetryPut(t, wake))
    ensures Inv(Next(s, RetryPut(t, wake)))
  {
    hide PutPass;
    OneThreadLess(s.wokenPut, t);
    PutKeepsInv(s.(wokenPut := s.wokenPut - {t}), t, s.items[t], wake);
  }

  lemma RetryTakeKeepsInv<T>(s: State<T>, t: ThreadId, wake: Option<ThreadId>)
    requires Inv(s) && Enabled(s, RetryTake(t, wake))
    ensures Inv(Next(s, RetryTake(t, wake)))
  {
    hide TakePass;
    OneThreadLess(s.wokenTake, t);
    TakeKeepsInv(s.(wokenTake := s.wokenTake - {t}), t, wake);
  }

  lemma NewcomerKeepsInv<T>(s: State<T>, step: Step<T>)
    requires Inv(s) && Enabled(s, step) && (step.Put? || step.Take?)
    ensures Inv(Next(s, step))
  {
    hide PutPass, TakePass;
    if step.Put? {
      PutKeepsInv(s, step.t, step.x, step.wake);
    } else {
      TakeKeepsInv(s, step.t, step.wake);
    }
  }

  lemma NextKeepsInv<T>(s: State<T>, step: Step<T>)
    requires Inv(s) && Enabled(s, step)
    ensures Inv(Next(s, step))
  {
    hide Inv, Enabled, Next;
    match step {
      case Put(_, _, _) => NewcomerKeepsInv(s, step);
      case RetryPut(t, wake) => RetryPutKeepsInv(s, t, wake);
      case Take(_, _) => NewcomerKeepsInv(s, step);
      case RetryTake(t, wake) => RetryTakeKeepsInv(s, t, wake);
      case Spurious(_) => SchedulerKeepsInv(s, step);
      case Stop => SchedulerKeepsInv(s, step);
    }
  }

  // ---- Runs ----

  predicate ValidRun<T>(s: State<T>, steps: seq<Step<T>>)
    decreases steps
  {
    steps != [] ==> Enabled(s, steps[0]) && ValidRun(Next(s, steps[0]), steps[1..])
  }

  function Run<T>(s: State<T>, steps: seq<Step<T>>): State<T>
    requires ValidRun(s, steps)
    decreases steps
  {
    if steps == [] then s else Run(Next(s, steps[0]), steps[1..])
  }

  /** Under every scheduling, with barging threads and spurious wakeups, the queue keeps its
      bound and its order, and wakeups suffice. */
  lemma {:induction false} RunKeepsInv<T>(s: State<T>, steps: seq<Step<T>>)
    requires Inv(s) && ValidRun(s, steps)
    ensures Inv(Run(s, steps))
    decreases steps
  {
    hide Inv, Enabled, Next;
    if steps != [] {
      NextKeepsInv(s, steps[0]);
      RunKeepsInv(Next(s, steps[0]), steps[1..]);
    }
  }

  lemma StartInv<T>(limit: Option<nat>)
    ensures Inv(Start<T>(limit))
  {
  }

  lemma {:induction false} RunOneMore<T>(s: State<T>, steps: seq<Step<T>>, step: Step<T>)
    requires ValidRun(s, steps) && Enabled(Run(s, steps), step)
    ensures ValidRun(s, steps + [step]) && Run(s, steps + [step]) == Next(Run(s, steps), step)
    decreases steps
  {
    hide Enabled, Next;
    if steps == [] {
      assert steps + [step] == [step];
    } else {
      assert (steps + [step])[1..] == steps[1..] + [step];
      RunOneMore(Next(s, steps[0]), steps[1..], step);
    }
  }

  ghost predicate Reached<T>(limit: Option<nat>, steps: seq<Step<T>>, s: State<T>) {
    ValidRun(Start<T>(limit), steps) && Run(Start<T>(limit), steps) == s
  }

  lemma ReachedInv<T>(limit: Option<nat>, steps: seq<Step<T>>, s: State<T>)
    requires Reached(limit, steps, s)
    ensures Inv(s)
  {
    StartInv<T>(limit);
    RunKeepsInv(Start<T>(limit), steps);
  }

  lemma Onward<T>(limit: Option<nat>, steps: seq<Step<T>>, s: State<T>, step: Step<T>) returns (more: seq<Step<T>>)
    requires Reached(limit, steps, s) && Enabled(s, step)
    ensures more == steps + [step] && Reached(limit, more, Next(s, step))
  {
    RunOneMore(Start<T>(limit), steps, step);
    more := steps + [step];
  }

  // ---- No wakeup is lost ----

  /** A consumer (producer) that could proceed is not left waiting with nobody woken. */
  lemma NoLostWakeup<T>(limit: Option<nat>, steps: seq<Step<T>>, s: State<T>)
    requires Reached(limit, steps, s)
    ensures s.queue != [] && s.waitingTake != {} ==> s.wokenTake != {}
    ensures !Full(s) && s.waitingPut != {} ==> s.wokenPut != {}
    ensures !s.running ==> s.waitingTake == {}
  {
    ReachedInv(limit, steps, s);
  }

  /** Producers and consumers all wait and none is woken. */
  predicate Deadlocked<T>(s: State<T>) {
    s.waitingPut != {} && s.waitingTake != {} && s.wokenPut == {} && s.wokenTake == {}
  }

  /** With room for an item producers and consumers cannot all wait for each other; without
      room they can. */
  lemma DeadlockIffNoRoom(max: nat)
    ensures (exists steps: seq<Step<int>>, s: State<int> :: Reached(Some(max), steps, s) && Deadlocked(s)) <==> max == 0
  {
    hide Reached;
    if steps: seq<Step<int>>, s: State<int> :| Reached(Some(max), steps, s) && Deadlocked(s) {
      ReachedInv(Some(max), steps, s);
      LimitKept(Some(max), steps, s);
    }
    if max == 0 {
      var s0 := Start<int>(Some(0));
      assert Reached(Some(0), [], s0) by { NothingReached<int>(Some(0)); }
      var steps := Onward(Some(0), [], s0, Put(1, 7, None));
      var s1 := s0.(waitingPut := {1}, items := map[1 := 7]);
      assert Next(s0, Put(1, 7, None)) == s1;
      steps := Onward(Some(0), steps, s1, Take(2, Some(1)));
      var s2 := s1.(waitingTake := {2});
      assert Next(s1, Take(2, Some(1))) == s2;
      assert Deadlocked(s2);
    }
  }

  lemma NothingReached<T>(limit: Option<nat>)
    ensures Reached(limit, [], Start<T>(limit))
  {
  }

  lemma LimitKept<T>(limit: Option<nat>, steps: seq<Step<T>>, s: State<T>)
    requires Reached(limit, steps, s)
    ensures s.limit == limit
  {
    RunKeepsLimit(Start<T>(limit), steps);
  }

  lemma {:induction false} RunKeepsLimit<T>(s: State<T>, steps: seq<Step<T>>)
    requires ValidRun(s, steps)
    ensures Run(s, steps).limit == s.limit
    decreases steps
  {
    if steps != [] {
      hide Enabled;
      RunKeepsLimit(Next(s, steps[0]), steps[1..]);
    }
  }

  // ---- Stopping a thread pool ----

  predicate TakesNothing<T>(steps: seq<Step<T>>) {
    forall i :: 0 <= i < |steps| ==> !steps[i].Take? && !steps[i].RetryTake?
  }

  /** `stop` wakes the workers only.  A producer that is blocked when the last worker leaves
      stays blocked, whoever else comes or is woken. */
  lemma {:induction false} Stranded<T>(s: State<T>, steps: seq<Step<T>>, t: ThreadId)
    requires ValidRun(s, steps) && TakesNothing(steps)
    requires Full(s) && (t in s.waitingPut || t in s.wokenPut)
    ensures var d := Run(s, steps); d.queue == s.queue && (t in d.waitingPut || t in d.wokenPut)
    decreases steps
  {
    if steps != [] {
      assert !steps[0].Take? && !steps[0].RetryTake?;
      Stranded(Next(s, steps[0]), steps[1..], t);
    }
  }

  predicate Releases<T>(s: State<T>, steps: seq<Step<T>>, t: ThreadId) {
    ValidRun(s, steps) && TakesNothing(steps) && !Blocked(Run(s, steps), t)
  }

  lemma RetryReleases<T>(s: State<T>, t: ThreadId) returns (steps: seq<Step<T>>)
    requires Inv(s) && !Full(s) && t in s.wokenPut
    ensures Releases(s, steps, t)
  {
    var wake := if s.waitingTake == {} then None else var u :| u in s.waitingTake; Some(u);
    steps := [RetryPut(t, wake)];
    assert steps[1..] == [];
    var d := Next(s, steps[0]);
    assert ValidRun(d, []) && Run(d, []) == d;
  }

  /** A blocked producer can be released without a worker taking a task if and only if the
      queue is not full. */
  lemma StrandedIffFull<T(!new)>(s: State<T>, t: ThreadId)
    requires Inv(s) && (t in s.waitingPut || t in s.wokenPut)
    ensures (exists steps :: Releases(s, steps, t)) <==> !Full(s)
  {
    if Full(s) {
      forall steps | ValidRun(s, steps) && TakesNothing(steps)
        ensures Blocked(Run(s, steps), t)
      {
        Stranded(s, steps, t);
      }
    } else if t in s.wokenPut {
      var steps := RetryReleases(s, t);
    } else {
      var d := Next(s, Spurious(t));
      NextKeepsInv(s, Spurious(t));
      var more := RetryReleases(d, t);
      var steps := [Spurious(t)] + more;
      assert steps[1..] == more;
      assert Releases(s, steps, t);
    }
  }

  /** Which can come about: one worker is busy with a task, another task fills the queue, the
      producer of a third waits, and the pool is stopped. */
  lemma StrandedHappens() returns (steps: seq<Step<int>>, s: State<int>)
    ensures Reached(Some(1), steps, s) && !s.running && Full(s) && 3 in s.waitingPut
    ensures s.wokenPut == s.waitingTake == s.wokenTake == {}
  {
    hide Reached;
    var limit: Option<nat> := Some(1);
    NothingReached<int>(limit);
    s := Start(limit);
    assert s.queue + [10] == [10] && s.put + [10] == [10] && s.putBy + [3] == [3];
    steps := Onward(limit, [], s, Put(3, 10, None));
    s := s.(queue := [10], put := [10], putBy := [3]);
    steps := Onward(limit, steps, s, Take(1, None));
    assert s.queue[1..] == [] && s.taken + [10] == [10] && s.takenBy + [1] == [1];
    s := s.(queue := [], taken := [10], takenBy := [1]);
    assert s.queue + [11] == [11] && s.put + [11] == [10, 11] && s.putBy + [3] == [3, 3];
    steps := Onward(limit, steps, s, Put(3, 11, None));
    s := s.(queue := [11], put := [10, 11], putBy := [3, 3]);
    steps := Onward(limit, steps, s, Put(3, 12, None));
    s := s.(waitingPut := {3}, items := map[3 := 12]);
    steps := Onward(limit, steps, s, Stop);
    assert s.wokenTake + s.waitingTake == {};
    s := s.(running := false);
  }

  // ---- The queue ----

  /** A step of another thread than `t`, or the scheduler's. */
  predicate Foreign<T>(step: Step<T>, t: ThreadId) {
    match step
    case Put(u, _, _) => u != t
    case RetryPut(u, _) => u != t
    case Take(u, _) => u != t
    case RetryTake(u, _) => u != t
    case Spurious(_) => true
    case Stop => false
  }

  predicate Producing<T(==)>(s: State<T>, t: ThreadId, x: T) {
    (t in s.waitingPut || t in s.wokenPut) && t in s.items && s.items[t] == x
  }

  predicate Consuming<T>(s: State<T>, t: ThreadId) {
    t in s.waitingTake || t in s.wokenTake
  }

  /** How many items a thread has put, and taken. */
  function Puts<T>(s: State<T>, t: ThreadId): nat {
    multiset(s.putBy)[t]
  }

  function Takes<T>(s: State<T>, t: ThreadId): nat {
    multiset(s.takenBy)[t]
  }

  /** A blocked thread stays where it is, or is woken, whatever the others do. */
  lemma ForeignKeeps<T(!new)>(s: State<T>, step: Step<T>, t: ThreadId)
    requires ThreadsInv(s) && Enabled(s, step) && Foreign(step, t)
    ensures forall x :: Producing(s, t, x) ==> Producing(Next(s, step), t, x)
    ensures Consuming(s, t) ==> Consuming(Next(s, step), t)
    ensures Next(s, step).running == s.running && s.put <= Next(s, step).put && s.taken <= Next(s, step).taken
  {
  }

  lemma CountMore(ids: seq<ThreadId>, u: ThreadId, t: ThreadId)
    ensures multiset(ids + [u])[t] == multiset(ids)[t] + (if u == t then 1 else 0)
  {
  }

  lemma PutHistory<T>(s: State<T>, u: ThreadId, x: T, wake: Option<ThreadId>)
    ensures var d := PutPass(s, u, x, wake);
            (d.putBy == s.putBy || d.putBy == s.putBy + [u]) && d.takenBy == s.takenBy
  {
  }

  lemma TakeHistory<T>(s: State<T>, u: ThreadId, wake: Option<ThreadId>)
    ensures var d := TakePass(s, u, wake);
            (d.takenBy == s.takenBy || d.takenBy == s.takenBy + [u]) && d.putBy == s.putBy
  {
  }

  lemma PutEffect<T>(s: State<T>, t: ThreadId, x: T, wake: Option<ThreadId>)
    requires !Blocked(s, t) && Reaches(s.waitingTake, wake)
    ensures var d := PutPass(s, t, x, wake);
            if Full(s) then t in d.waitingPut && Producing(d, t, x) && d.put == s.put && Puts(d, t) == Puts(s, t)
            else !Blocked(d, t) && d.put == s.put + [x] && Puts(d, t) == Puts(s, t) + 1
  {
    CountMore(s.putBy, t, t);
  }

  lemma TakeEffect<T>(s: State<T>, t: ThreadId, wake: Option<ThreadId>)
    requires !Blocked(s, t) && Reaches(s.waitingPut, wake) && s.running
    ensures var d := TakePass(s, t, wake);
            d.running
            && if s.queue == [] then t in d.waitingTake && d.taken == s.taken && Takes(d, t) == Takes(s, t)
               else !Blocked(d, t) && d.taken == s.taken + [s.queue[0]] && Takes(d, t) == Takes(s, t) + 1
  {
    CountMore(s.takenBy, t, t);
  }

  /** A woken thread is not blocked otherwise. */
  lemma OnlyWoken<T>(s: State<T>, t: ThreadId)
    requires ThreadsInv(s)
    ensures t in s.wokenPut ==> !Blocked(s.(wokenPut := s.wokenPut - {t}), t)
    ensures t in s.wokenTake ==> !Blocked(s.(wokenTake := s.wokenTake - {t}), t)
  {
  }

  /** And puts and takes nothing in its name. */
  lemma ForeignCounts<T>(s: State<T>, step: Step<T>, t: ThreadId)
    requires Enabled(s, step) && Foreign(step, t)
    ensures Puts(Next(s, step), t) == Puts(s, t) && Takes(Next(s, step), t) == Takes(s, t)
  {
    hide Reaches, PutPass, TakePass;
    match step {
      case Put(u, x, wake) =>
        PutHistory(s, u, x, wake);
        CountMore(s.putBy, u, t);
      case RetryPut(u, wake) =>
        PutHistory(s.(wokenPut := s.wokenPut - {u}), u, s.items[u], wake);
        CountMore(s.putBy, u, t);
      case Take(u, wake) =>
        TakeHistory(s, u, wake);
        CountMore(s.takenBy, u, t);
      case RetryTake(u, wake) =>
        TakeHistory(s.(wokenTake := s.wokenTake - {u}), u, wake);
        CountMore(s.takenBy, u, t);
      case Spurious(_) =>
    }
  }

  /** What the others make of a state while `t` waits: every step of theirs that is possible. */
  function Meanwhile<T>(s: State<T>, t: ThreadId, steps: seq<Step<T>>): State<T> {
    if steps == [] then s
    else
      var d, step := Meanwhile(s, t, steps[..|steps| - 1]), steps[|steps| - 1];
      if Enabled(d, step) && Foreign(step, t) then Next(d, step) else d
  }

  lemma MeanwhileMore<T>(s: State<T>, t: ThreadId, steps: seq<Step<T>>, i: nat)
    requires i < |steps|
    ensures Meanwhile(s, t, steps[..0]) == s
    ensures var d := Meanwhile(s, t, steps[..i]);
            Meanwhile(s, t, steps[..i + 1]) == if Enabled(d, steps[i]) && Foreign(steps[i], t) then Next(d, steps[i]) else d
  {
    hide Enabled, Next, Foreign;
    assert steps[..i + 1][..i] == steps[..i];
  }

  /** `BoundedBlockingQueue`; `monitor` holds the queue and who waits. */
  class BoundedBlockingQueue<T(==,!new)> {
    const maxSize: nat
    var monitor: State<T>
    ghost var trace: seq<Step<T>>

    ghost predicate Valid()
      reads this
    {
      Reached(Some(maxSize), trace, monitor) && monitor.running
    }

    constructor (maxSize: nat)
      ensures Valid() && this.maxSize == maxSize && monitor == Start(Some(maxSize))
    {
      this.maxSize := maxSize;
      monitor, trace := Start(Some(maxSize)), [];
    }

    method Perform(step: Step<T>)
      requires Valid() && Enabled(monitor, step) && !step.Stop?
      modifies this
      ensures Valid() && monitor == Next(old(monitor), step) && trace == old(trace) + [step]
    {
      hide Reached, Enabled;
      trace := Onward(Some(maxSize), trace, monitor, step);
      monitor := Next(monitor, step);
    }

    /** The thread a notification reaches is the scheduler's choice. */
    method Choose(waiting: set<ThreadId>) returns (wake: Option<ThreadId>)
      ensures Reaches(waiting, wake)
    {
      if waiting == {} {
        wake := None;
      } else {
        var t :| t in waiting;
        wake := Some(t);
      }
    }

    /** What other threads and the scheduler do while `t` waits: any steps that are possible. */
    method Others(t: ThreadId, steps: seq<Step<T>>)
      requires Valid()
      modifies this
      ensures Valid() && monitor == Meanwhile(old(monitor), t, steps)
      ensures forall x :: Producing(old(monitor), t, x) ==> Producing(monitor, t, x)
      ensures Consuming(old(monitor), t) ==> Consuming(monitor, t)
      ensures old(monitor.put) <= monitor.put && old(monitor.taken) <= monitor.taken
      ensures Puts(monitor, t) == Puts(old(monitor), t) && Takes(monitor, t) == Takes(old(monitor), t)
    {
      hide Reached, Next, Enabled, Foreign, Producing, Consuming, Puts, Takes;
      for i := 0 to |steps|
        invariant Valid() && monitor == Meanwhile(old(monitor), t, steps[..i])
        invariant forall x :: Producing(old(monitor), t, x) ==> Producing(monitor, t, x)
        invariant Consuming(old(monitor), t) ==> Consuming(monitor, t)
        invariant old(monitor.put) <= monitor.put && old(monitor.taken) <= monitor.taken
        invariant Puts(monitor, t) == Puts(old(monitor), t) && Takes(monitor, t) == Takes(old(monitor), t)
      {
        MeanwhileMore(old(monitor), t, steps, i);
        if Enabled(monitor, steps[i]) && Foreign(steps[i], t) {
          assert !steps[i].Stop? by { ForeignRuns(steps[i], t); }
          ReachedInv(Some(maxSize), trace, monitor);
          ForeignKeeps(monitor, steps[i], t);
          ForeignCounts(monitor, steps[i], t);
          Perform(steps[i]);
        }
      }
      assert steps[..|steps|] == steps;
    }

    lemma ForeignRuns(step: Step<T>, t: ThreadId)
      requires Foreign(step, t)
      ensures !step.Stop?
    {
    }

    lemma Bounded()
      requires Valid()
      ensures Inv(monitor) && monitor.limit == Some(maxSize) && |monitor.queue| <= maxSize
      ensures Full(monitor) <==> |monitor.queue| == maxSize
    {
      hide Reached;
      ReachedInv(Some(maxSize), trace, monitor);
      LimitKept(Some(maxSize), trace, monitor);
    }

    /** One stretch of `put` under the mutex: it puts the item, or waits because the queue is
        full. */
    method PutSection(t: ThreadId, x: T, woken: bool) returns (waits: bool)
      requires Valid() && if woken then t in monitor.wokenPut && Producing(monitor, t, x) else !Blocked(monitor, t)
      modifies this
      ensures Valid() && waits == (|old(monitor).queue| == maxSize)
      ensures waits ==> t in monitor.waitingPut && Producing(monitor, t, x) && monitor.put == old(monitor).put
      ensures !waits ==> !Blocked(monitor, t) && monitor.put == old(monitor).put + [x]
      ensures Puts(monitor, t) == Puts(old(monitor), t) + (if waits then 0 else 1)
    {
      hide Reached, PutPass, Blocked, Reaches, Puts;
      Bounded();
      OnlyWoken(monitor, t);
      waits := |monitor.queue| == maxSize;
      assert waits || |monitor.queue| < maxSize;
      var wake := Choose(monitor.waitingTake);
      if woken {
        PutEffect(monitor.(wokenPut := monitor.wokenPut - {t}), t, x, wake);
        SamePuts(monitor, monitor.(wokenPut := monitor.wokenPut - {t}), t);
        Perform(RetryPut(t, wake));
      } else {
        PutEffect(monitor, t, x, wake);
        Perform(Step.Put(t, x, wake));
      }
    }

    lemma SamePuts(s: State<T>, d: State<T>, t: ThreadId)
      requires s.putBy == d.putBy && s.takenBy == d.takenBy
      ensures Puts(s, t) == Puts(d, t) && Takes(s, t) == Takes(d, t)
    {
    }

    /** `put`, against what the others do during each wait; `done` is false when the thread is
        still blocked at their end. */
    method Put(t: ThreadId, x: T, others: seq<seq<Step<T>>>) returns (done: bool)
      requires Valid() && !Blocked(monitor, t)
      modifies this
      ensures Valid()
      ensures done ==> !Blocked(monitor, t) && old(monitor.put) < monitor.put && monitor.put[|monitor.put| - 1] == x
      ensures !done ==> old(monitor.put) <= monitor.put && Producing(monitor, t, x)
      ensures Puts(monitor, t) == Puts(old(monitor), t) + (if done then 1 else 0)
    {
      hide Reached, Blocked, Puts;
      var k := 0;
      var waits := PutSection(t, x, false);
      while waits
        invariant Valid() && k <= |others|
        invariant waits ==> t in monitor.waitingPut && Producing(monitor, t, x) && old(monitor.put) <= monitor.put
        invariant !waits ==> !Blocked(monitor, t) && old(monitor.put) < monitor.put && monitor.put[|monitor.put| - 1] == x
        invariant Puts(monitor, t) == Puts(old(monitor), t) + (if waits then 0 else 1)
        decreases |others| - k, waits
      {
        if k == |others| {
          return false;
        }
        Others(t, others[k]);
        k := k + 1;
        if t !in monitor.waitingPut {
          waits := PutSection(t, x, true);
        }
      }
      done := true;
    }

    method TakeSection(t: ThreadId, woken: bool) returns (front: Option<T>)
      requires Valid() && if woken then t in monitor.wokenTake else !Blocked(monitor, t)
      modifies this
      ensures Valid() && (front.None? <==> old(monitor).queue == [])
      ensures front.None? ==> t in monitor.waitingTake && monitor.taken == old(monitor).taken
      ensures front.Some? ==> front.value == old(monitor).queue[0]
      ensures front.Some? ==> !Blocked(monitor, t) && monitor.taken == old(monitor).taken + [front.value]
      ensures Takes(monitor, t) == Takes(old(monitor), t) + (if front.None? then 0 else 1)
    {
      hide Reached, TakePass, Blocked, Reaches, Takes;
      Bounded();
      OnlyWoken(monitor, t);
      front := if monitor.queue == [] then None else Some(monitor.queue[0]);
      var wake := Choose(monitor.waitingPut);
      if woken {
        TakeEffect(monitor.(wokenTake := monitor.wokenTake - {t}), t, wake);
        SamePuts(monitor, monitor.(wokenTake := monitor.wokenTake - {t}), t);
        Perform(RetryTake(t, wake));
      } else {
        TakeEffect(monitor, t, wake);
        Perform(Step.Take(t, wake));
      }
    }

    /** `take`, in the same way. */
    method Take(t: ThreadId, others: seq<seq<Step<T>>>) returns (front: Option<T>)
      requires Valid() && !Blocked(monitor, t)
      modifies this
      ensures Valid()
      ensures front.Some? ==> !Blocked(monitor, t) && old(monitor.taken) < monitor.taken && monitor.taken[|monitor.taken| - 1] == front.value
      ensures front.None? ==> old(monitor.taken) <= monitor.taken && Consuming(monitor, t)
      ensures Takes(monitor, t) == Takes(old(monitor), t) + (if front.Some? then 1 else 0)
    {
      hide Reached, Blocked, Takes;
      var k := 0;
      front := TakeSection(t, false);
      while front.None?
        invariant Valid() && k <= |others|
        invariant front.None? ==> t in monitor.waitingTake && old(monitor.taken) <= monitor.taken
        invariant front.Some? ==> !Blocked(monitor, t) && old(monitor.taken) < monitor.taken && monitor.taken[|monitor.taken| - 1] == front.value
        invariant Takes(monitor, t) == Takes(old(monitor), t) + (if front.None? then 0 else 1)
        decreases |others| - k, front.None?
      {
        if k == |others| {
          return None;
        }
        Others(t, others[k]);
        k := k + 1;
        if t !in monitor.waitingTake {
          front := TakeSection(t, true);
        }
      }
    }
  }
}
