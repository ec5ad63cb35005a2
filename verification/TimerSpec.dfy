/**
 The timer queue as its users may think of it: timers are identified by their
 sequence number alone, and nothing is said about heap addresses being recycled,
 about ordered sets, or about when objects are deleted.  `TimerQueue.dfy` proves
 that the pointer-based queue refines this one; this file proves what holds over
 every run of it.
 */
module TimerSpec {

  /** Microseconds since the epoch; `Timestamp::valid()` is `> 0`. */
  type Time = int

  const UINTPTR_MAX: nat := 0xFFFF_FFFF_FFFF_FFFF
  const MIN_DELAY: Time := 100

  /** The address of a heap object; the last address never starts one. */
  type Address = p: nat | p < UINTPTR_MAX

  /** A repeating timer has a positive interval, in microseconds. */
  datatype Info = Info(expiration: Time, interval: nat)

  datatype TimerId = TimerId(address: Address, sequence: nat)

  /** The one-shot kernel timer and the instant at which it was last set. */
  datatype Arming = Disarmed | Armed(deadline: Time, setAt: Time)

  datatype Queue = Queue(
    pending: map<nat, Info>,    // inserted and not expired
    inFlight: map<nat, Info>,   // expired, callbacks running, not yet reset
    calling: bool,
    cancelled: set<nat>,        // cancellations recorded while a batch runs
    issued: map<nat, Address>,  // the address in the TimerId handed out for each sequence number
    created: nat,
    arming: Arming
  )

  /** One call made by a callback or by the loop thread.  `hint` is the address the
      allocator answers with; an allocation answering with a live address is refused. */
  datatype Op =
    | Add(hint: Address, when: Time, interval: nat, clock: Time)
    | Cancel(id: TimerId)

  /** What the callback of the i-th timer of a batch, of a given sequence number, does. */
  type Callback = (nat, nat) -> seq<Op>

  /** An event between two polls: a call from the loop thread, or the kernel timer's
      read event.  `alarm` says whether the read found the timer expired. */
  datatype Event =
    | Call(op: Op)
    | Fire(now: Time, alarm: bool, batch: seq<nat>, callback: Callback, clock: Time)

  function Max(a: int, b: int): int {
    if a < b then b else a
  }

  function Arm(expiration: Time, clock: Time): Arming {
    Armed(clock + Max(MIN_DELAY, expiration - clock), clock)
  }

  ghost predicate IsLive(a: Queue, q: nat) {
    q in a.pending || q in a.inFlight
  }

  ghost predicate Inv(a: Queue) {
    && a.pending.Keys !! a.inFlight.Keys
    && (forall q :: IsLive(a, q) ==> q in a.issued)
    && (forall q :: q in a.issued ==> 1 <= q <= a.created)
    && (forall q, r :: IsLive(a, q) && IsLive(a, r) && q != r ==> a.issued[q] != a.issued[r])
  }

  ghost predicate Idle(a: Queue) {
    Inv(a) && !a.calling && a.inFlight == map[]
  }

  ghost predicate AddressInUse(a: Queue, p: Address) {
    exists q :: IsLive(a, q) && q in a.issued && a.issued[q] == p
  }

  ghost predicate Precedes(when: Time, m: map<nat, Info>) {
    forall q :: q in m ==> when < m[q].expiration
  }

  ghost function Enter(a: Queue, address: Address, info: Info, clock: Time): Queue {
    var q := a.created + 1;
    a.(created := q,
       issued := a.issued[q := address],
       pending := a.pending[q := info],
       arming := if Precedes(info.expiration, a.pending) then Arm(info.expiration, clock) else a.arming)
  }

  function Drop(a: Queue, q: nat): Queue {
    if q in a.pending then a.(pending := a.pending - {q})
    else if a.calling then a.(cancelled := a.cancelled + {q})
    else a
  }

  /** A TimerId acts only as the one handed out for its sequence number. */
  ghost function Apply(a: Queue, op: Op): Queue {
    match op
    case Add(hint, when, interval, clock) =>
      if AddressInUse(a, hint) then a else Enter(a, hint, Info(when, interval), clock)
    case Cancel(id) =>
      if id.sequence in a.issued && a.issued[id.sequence] == id.address then Drop(a, id.sequence) else a
  }

  ghost function RunScript(a: Queue, ops: seq<Op>): Queue {
    if ops == [] then a else Apply(RunScript(a, ops[..|ops| - 1]), ops[|ops| - 1])
  }

  ghost function RunBatch(a: Queue, batch: seq<nat>, callback: Callback): Queue {
    if batch == [] then a
    else
      var k := |batch| - 1;
      RunScript(RunBatch(a, batch[..k], callback), callback(k, batch[k]))
  }

  ghost function Expire(a: Queue, now: Time, alarm: bool): Queue {
    a.(pending := map q | q in a.pending && now < a.pending[q].expiration :: a.pending[q],
       inFlight := map q | q in a.pending && a.pending[q].expiration <= now :: a.pending[q],
       calling := true,
       cancelled := {},
       arming := if alarm then Disarmed else a.arming)
  }

  ghost predicate Returns(a: Queue, q: nat) {
    q in a.inFlight && a.inFlight[q].interval > 0 && q !in a.cancelled
  }

  ghost function Restarted(a: Queue, now: Time): map<nat, Info> {
    map q | q in a.inFlight && Returns(a, q) :: Info(now + a.inFlight[q].interval, a.inFlight[q].interval)
  }

  ghost predicate IsEarliest(t: Time, m: map<nat, Info>) {
    && (exists q :: q in m && m[q].expiration == t)
    && (forall q :: q in m ==> t <= m[q].expiration)
  }

  lemma EarliestExists(m: map<nat, Info>)
    requires m != map[]
    ensures exists t :: IsEarliest(t, m)
    decreases m.Keys
  {
    var q :| q in m;
    var rest := m - {q};
    if rest == map[] {
      assert forall r :: r in m ==> r == q || r in rest;
      assert IsEarliest(m[q].expiration, m);
    } else {
      assert rest.Keys < m.Keys by { assert q !in rest.Keys; }
      EarliestExists(rest);
      var t :| IsEarliest(t, rest);
      var r :| r in rest && rest[r].expiration == t;
      assert forall s :: s in m ==> s == q || s in rest;
      if m[q].expiration < t {
        assert IsEarliest(m[q].expiration, m);
      } else {
        assert m[r].expiration == t;
        assert IsEarliest(t, m);
      }
    }
  }

  ghost function Earliest(m: map<nat, Info>): (t: Time)
    requires m != map[]
    ensures IsEarliest(t, m)
  {
    EarliestExists(m);
    var t :| IsEarliest(t, m);
    t
  }

  /** After a batch: re-enter the repeating timers nobody cancelled, forget the others,
      and arm the kernel timer for the earliest one when that is a valid time. */
  ghost function Reset(a: Queue, now: Time, clock: Time): Queue {
    var pending := a.pending + Restarted(a, now);
    a.(pending := pending,
       inFlight := map[],
       calling := false,
       arming := if pending != map[] && Earliest(pending) > 0 then Arm(Earliest(pending), clock) else a.arming)
  }

  ghost function Next(a: Queue, e: Event): Queue {
    match e
    case Call(op) => Apply(a, op)
    case Fire(now, alarm, batch, callback, clock) =>
      Reset(RunBatch(Expire(a, now, alarm), batch, callback), now, clock)
  }

  /** A batch is exactly the expired timers, each once, in order of expiration. */
  ghost predicate IsBatch(a: Queue, now: Time, batch: seq<nat>) {
    && (forall q :: q in batch <==> q in a.pending && a.pending[q].expiration <= now)
    && (forall i, j :: 0 <= i < j < |batch| ==> batch[i] != batch[j])
    && (forall i, j :: 0 <= i < j < |batch| ==>
          batch[i] in a.pending && batch[j] in a.pending &&
          a.pending[batch[i]].expiration <= a.pending[batch[j]].expiration)
  }

  ghost predicate Legal(a: Queue, e: Event) {
    e.Fire? ==> e.now > 0 && IsBatch(a, e.now, e.batch)
  }

  ghost function Run(a: Queue, events: seq<Event>): Queue
    decreases events
  {
    if events == [] then a else Run(Next(a, events[0]), events[1..])
  }

  ghost predicate LegalRun(a: Queue, events: seq<Event>)
    decreases events
  {
    events != [] ==> Legal(a, events[0]) && LegalRun(Next(a, events[0]), events[1..])
  }

  // ---- What a script, a batch and an event keep ----

  /** From `a` to `b`, sequence numbers are only ever handed out once: a number already
      issued keeps its address, and one that is no longer live stays so. */
  ghost predicate Evolves(a: Queue, b: Queue) {
    && a.created <= b.created
    && (forall q :: q in a.issued ==> q in b.issued && b.issued[q] == a.issued[q])
    && (forall q: nat :: q <= a.created && IsLive(b, q) ==> IsLive(a, q))
  }

  lemma EvolvesTransitive(a: Queue, b: Queue, c: Queue)
    requires Inv(a) && Evolves(a, b) && Evolves(b, c)
    ensures Evolves(a, c)
  {
    forall q: nat | q <= a.created && IsLive(c, q) ensures IsLive(a, q) {
      assert IsLive(b, q);
    }
  }

  /** What one call keeps, whatever the state it is made in. */
  ghost predicate Keeps(a: Queue, b: Queue) {
    && Inv(b)
    && Evolves(a, b)
    && b.inFlight == a.inFlight
    && b.calling == a.calling
    && (a.calling ==> a.cancelled <= b.cancelled)
    && (forall q: nat :: q <= a.created && q !in a.pending ==> q !in b.pending)
  }

  lemma EnterKeeps(a: Queue, address: Address, info: Info, clock: Time)
    requires Inv(a) && !AddressInUse(a, address)
    ensures Keeps(a, Enter(a, address, info, clock))
  {
    var b := Enter(a, address, info, clock);
    assert !IsLive(a, b.created);
    assert forall q :: IsLive(b, q) <==> IsLive(a, q) || q == b.created;
    forall q, r | IsLive(b, q) && IsLive(b, r) && q != r ensures b.issued[q] != b.issued[r] {
      assert IsLive(a, q) || IsLive(a, r);
    }
  }

  lemma DropKeeps(a: Queue, q: nat)
    requires Inv(a)
    ensures Keeps(a, Drop(a, q))
  {
    assert forall r :: IsLive(Drop(a, q), r) ==> IsLive(a, r);
  }

  lemma ApplyKeeps(a: Queue, op: Op)
    requires Inv(a)
    ensures Keeps(a, Apply(a, op))
  {
    match op
    case Add(hint, when, interval, clock) =>
      if !AddressInUse(a, hint) {
        EnterKeeps(a, hint, Info(when, interval), clock);
      }
    case Cancel(id) =>
      DropKeeps(a, id.sequence);
  }

  lemma KeepsTransitive(a: Queue, b: Queue, c: Queue)
    requires Inv(a) && Keeps(a, b) && Keeps(b, c)
    ensures Keeps(a, c)
  {
    EvolvesTransitive(a, b, c);
  }

  lemma {:induction false} ScriptKeeps(a: Queue, ops: seq<Op>)
    requires Inv(a)
    ensures Keeps(a, RunScript(a, ops))
  {
    if ops != [] {
      var k := |ops| - 1;
      var b := RunScript(a, ops[..k]);
      ScriptKeeps(a, ops[..k]);
      ApplyKeeps(b, ops[k]);
      KeepsTransitive(a, b, RunScript(a, ops));
    }
  }

  lemma {:induction false} BatchKeeps(a: Queue, batch: seq<nat>, callback: Callback)
    requires Inv(a)
    ensures Keeps(a, RunBatch(a, batch, callback))
  {
    if batch != [] {
      var k := |batch| - 1;
      var b := RunBatch(a, batch[..k], callback);
      BatchKeeps(a, batch[..k], callback);
      ScriptKeeps(b, callback(k, batch[k]));
      KeepsTransitive(a, b, RunBatch(a, batch, callback));
    }
  }

  lemma ExpireKeeps(a: Queue, now: Time, alarm: bool)
    requires Idle(a)
    ensures Inv(Expire(a, now, alarm)) && Evolves(a, Expire(a, now, alarm))
    ensures forall q :: IsLive(a, q) ==> IsLive(Expire(a, now, alarm), q)
  {
    var b := Expire(a, now, alarm);
    assert forall q :: IsLive(b, q) <==> IsLive(a, q);
  }

  lemma ResetKeeps(a: Queue, now: Time, clock: Time)
    requires Inv(a)
    ensures Idle(Reset(a, now, clock)) && Evolves(a, Reset(a, now, clock))
    ensures forall q :: q in Reset(a, now, clock).pending <==> q in a.pending || Returns(a, q)
  {
    var b := Reset(a, now, clock);
    assert forall q :: IsLive(b, q) ==> IsLive(a, q);
  }

  lemma NextKeeps(a: Queue, e: Event)
    requires Idle(a) && Legal(a, e)
    ensures Idle(Next(a, e)) && Evolves(a, Next(a, e))
  {
    match e
    case Call(op) =>
      ApplyKeeps(a, op);
    case Fire(now, alarm, batch, callback, clock) =>
      var b := Expire(a, now, alarm);
      var c := RunBatch(b, batch, callback);
      ExpireKeeps(a, now, alarm);
      BatchKeeps(b, batch, callback);
      ResetKeeps(c, now, clock);
      EvolvesTransitive(a, b, c);
      EvolvesTransitive(a, c, Next(a, e));
  }

  /** Every run keeps the queue consistent, and never revives or re-issues a sequence number. */
  lemma {:induction false} RunKeeps(a: Queue, events: seq<Event>)
    requires Idle(a) && LegalRun(a, events)
    ensures Idle(Run(a, events)) && Evolves(a, Run(a, events))
    decreases events
  {
    if events != [] {
      var b := Next(a, events[0]);
      NextKeeps(a, events[0]);
      RunKeeps(b, events[1..]);
      EvolvesTransitive(a, b, Run(b, events[1..]));
    }
  }

  // ---- Cancelled means gone; stale means harmless ----

  /** A sequence number that was issued and is not live is in no later batch. */
  lemma {:induction false} GoneForever(a: Queue, events: seq<Event>, q: nat, i: nat)
    requires Idle(a) && LegalRun(a, events)
    requires q <= a.created && q !in a.pending
    requires i < |events|
    ensures events[i].Fire? ==> q !in events[i].batch
    decreases events
  {
    if i > 0 {
      NextKeeps(a, events[0]);
      assert !IsLive(Next(a, events[0]), q);
      GoneForever(Next(a, events[0]), events[1..], q, i - 1);
    }
  }

  function Members(batch: seq<nat>): set<nat> {
    set q | q in batch
  }

  lemma {:induction false} EachOnce(batch: seq<nat>)
    requires forall i, j :: 0 <= i < j < |batch| ==> batch[i] != batch[j]
    ensures |Members(batch)| == |batch|
  {
    if batch == [] {
      assert Members(batch) == {};
    } else {
      var front, last := batch[..|batch| - 1], batch[|batch| - 1];
      EachOnce(front);
      assert batch == front + [last] && last !in front;
      assert Members(batch) == Members(front) + {last};
    }
  }

  /** A batch is the timers due, each once and the earliest first. */
  lemma BatchIsDue(a: Queue, now: Time, batch: seq<nat>)
    requires IsBatch(a, now, batch)
    ensures var due := set q | q in a.pending && a.pending[q].expiration <= now;
            Members(batch) == due && |batch| == |due|
    ensures forall i, j :: 0 <= i < j < |batch| ==>
              && batch[i] in a.pending && batch[j] in a.pending
              && a.pending[batch[i]].expiration <= a.pending[batch[j]].expiration
  {
    EachOnce(batch);
  }

  /** Some callback of the batch cancels timer `id` of that batch. */
  ghost predicate CancelledInBatch(batch: seq<nat>, callback: Callback, id: TimerId) {
    exists k :: 0 <= k < |batch| && Cancel(id) in callback(k, batch[k])
  }

  /** A timer that will be in no later batch: it is not waiting, and if it is in the batch
      that runs, its cancellation is recorded. */
  ghost predicate Gone(a: Queue, q: nat) {
    q <= a.created && q !in a.pending && (q in a.inFlight ==> q in a.cancelled)
  }

  lemma CancelledIsGone(a: Queue, id: TimerId)
    requires Inv(a) && a.calling && id.sequence in a.issued && a.issued[id.sequence] == id.address
    ensures Gone(Apply(a, Cancel(id)), id.sequence)
  {
  }

  lemma GoneStays(a: Queue, b: Queue, q: nat)
    requires a.calling && Keeps(a, b) && Gone(a, q)
    ensures Gone(b, q)
  {
  }

  lemma {:induction false} ScriptCancels(a: Queue, ops: seq<Op>, j: nat, id: TimerId)
    requires Inv(a) && a.calling && j < |ops| && ops[j] == Cancel(id)
    requires var s := RunScript(a, ops[..j]); id.sequence in s.issued && s.issued[id.sequence] == id.address
    ensures Gone(RunScript(a, ops), id.sequence)
  {
    var k := |ops| - 1;
    var b := RunScript(a, ops[..k]);
    ScriptKeeps(a, ops[..k]);
    ApplyKeeps(b, ops[k]);
    if j == k {
      CancelledIsGone(b, id);
    } else {
      assert ops[..k][..j] == ops[..j];
      ScriptCancels(a, ops[..k], j, id);
      GoneStays(b, RunScript(a, ops), id.sequence);
    }
  }

  /** The state in which the callback of the k-th timer of a batch makes its j-th call. */
  ghost function AtCall(a: Queue, batch: seq<nat>, callback: Callback, k: nat, j: nat): Queue
    requires k < |batch| && j <= |callback(k, batch[k])|
  {
    RunScript(RunBatch(a, batch[..k], callback), callback(k, batch[k])[..j])
  }

  lemma {:induction false} BatchCancels(a: Queue, batch: seq<nat>, callback: Callback, k: nat, j: nat, id: TimerId)
    requires Inv(a) && a.calling
    requires k < |batch| && j < |callback(k, batch[k])| && callback(k, batch[k])[j] == Cancel(id)
    requires var s := AtCall(a, batch, callback, k, j); id.sequence in s.issued && s.issued[id.sequence] == id.address
    ensures Gone(RunBatch(a, batch, callback), id.sequence)
  {
    var last := |batch| - 1;
    var b := RunBatch(a, batch[..last], callback);
    BatchKeeps(a, batch[..last], callback);
    ScriptKeeps(b, callback(last, batch[last]));
    if k == last {
      ScriptCancels(b, callback(k, batch[k]), j, id);
    } else {
      assert batch[..last][..k] == batch[..k] && batch[..last][k] == batch[k];
      BatchCancels(a, batch[..last], callback, k, j, id);
      GoneStays(b, RunBatch(a, batch, callback), id.sequence);
    }
  }

  /** A recorded cancellation of a timer in flight was asked for, under its own address. */
  lemma {:induction false} ScriptRecordsAsked(a: Queue, ops: seq<Op>, q: nat)
    requires Inv(a) && a.calling && q in a.inFlight && q !in a.cancelled
    requires q in RunScript(a, ops).cancelled
    ensures Cancel(TimerId(a.issued[q], q)) in ops
  {
    var k := |ops| - 1;
    ScriptKeeps(a, ops[..k]);
    if q in RunScript(a, ops[..k]).cancelled {
      ScriptRecordsAsked(a, ops[..k], q);
    } else {
      assert ops[k] == Cancel(TimerId(a.issued[q], q));
    }
  }

  lemma {:induction false} BatchRecordsAsked(a: Queue, batch: seq<nat>, callback: Callback, q: nat)
    requires Inv(a) && a.calling && q in a.inFlight && q !in a.cancelled
    requires q in RunBatch(a, batch, callback).cancelled
    ensures CancelledInBatch(batch, callback, TimerId(a.issued[q], q))
  {
    var k := |batch| - 1;
    var b := RunBatch(a, batch[..k], callback);
    var id := TimerId(a.issued[q], q);
    BatchKeeps(a, batch[..k], callback);
    if q in b.cancelled {
      BatchRecordsAsked(a, batch[..k], callback, q);
      var j :| 0 <= j < k && Cancel(id) in callback(j, batch[..k][j]);
      assert Cancel(id) in callback(j, batch[j]);
    } else {
      ScriptRecordsAsked(b, callback(k, batch[k]), q);
    }
  }

  /** Cancelling a pending timer between batches removes it, and only it. */
  lemma CancelPending(a: Queue, id: TimerId)
    requires Idle(a) && id.sequence in a.pending && a.issued[id.sequence] == id.address
    ensures Apply(a, Cancel(id)) == a.(pending := a.pending - {id.sequence})
    ensures forall events: seq<Event>, i ::
      LegalRun(Apply(a, Cancel(id)), events) && 0 <= i < |events| && events[i].Fire? ==> id.sequence !in events[i].batch
  {
    var b := Apply(a, Cancel(id));
    ApplyKeeps(a, Cancel(id));
    forall events: seq<Event>, i | LegalRun(b, events) && 0 <= i < |events| && events[i].Fire?
      ensures id.sequence !in events[i].batch
    {
      GoneForever(b, events, id.sequence, i);
    }
  }

  /** Cancelling from inside a batch, by the j-th call of the k-th callback, works for every
      timer inserted by then: one that waits, one that an earlier call of this or another
      callback of the batch added, another timer of the batch, or the very timer whose
      callback is running.  It is in no later batch of any run. */
  lemma CancelDuringBatch(a: Queue, e: Event, k: nat, j: nat, id: TimerId)
    requires Idle(a) && e.Fire? && Legal(a, e)
    requires k < |e.batch| && j < |e.callback(k, e.batch[k])| && e.callback(k, e.batch[k])[j] == Cancel(id)
    requires var s := AtCall(Expire(a, e.now, e.alarm), e.batch, e.callback, k, j);
             id.sequence in s.issued && s.issued[id.sequence] == id.address
    ensures id.sequence !in Next(a, e).pending
    ensures forall events: seq<Event>, i ::
      LegalRun(Next(a, e), events) && 0 <= i < |events| && events[i].Fire? ==> id.sequence !in events[i].batch
  {
    var q := id.sequence;
    var b := Expire(a, e.now, e.alarm);
    var c := RunBatch(b, e.batch, e.callback);
    ExpireKeeps(a, e.now, e.alarm);
    BatchKeeps(b, e.batch, e.callback);
    BatchCancels(b, e.batch, e.callback, k, j, id);
    ResetKeeps(c, e.now, e.clock);
    NextKeeps(a, e);
    forall events: seq<Event>, i | LegalRun(Next(a, e), events) && 0 <= i < |events| && events[i].Fire?
      ensures q !in events[i].batch
    {
      GoneForever(Next(a, e), events, q, i);
    }
  }

  /** In particular every timer inserted before the batch. */
  lemma CancelInsertedDuringBatch(a: Queue, e: Event, id: TimerId)
    requires Idle(a) && e.Fire? && Legal(a, e)
    requires id.sequence in a.pending && a.issued[id.sequence] == id.address
    requires CancelledInBatch(e.batch, e.callback, id)
    ensures id.sequence !in Next(a, e).pending
    ensures forall events: seq<Event>, i ::
      LegalRun(Next(a, e), events) && 0 <= i < |events| && events[i].Fire? ==> id.sequence !in events[i].batch
  {
    var k :| 0 <= k < |e.batch| && Cancel(id) in e.callback(k, e.batch[k]);
    var ops := e.callback(k, e.batch[k]);
    var j :| 0 <= j < |ops| && ops[j] == Cancel(id);
    var b := Expire(a, e.now, e.alarm);
    ExpireKeeps(a, e.now, e.alarm);
    BatchKeeps(b, e.batch[..k], e.callback);
    ScriptKeeps(RunBatch(b, e.batch[..k], e.callback), ops[..j]);
    CancelDuringBatch(a, e, k, j, id);
  }

  /** A TimerId whose timer is gone changes no timer and no alarm, even when its address
      has been given to another timer. */
  lemma StaleCancelIsHarmless(a: Queue, id: TimerId)
    requires Inv(a) && !IsLive(a, id.sequence)
    ensures var b := Apply(a, Cancel(id));
            && b.(cancelled := a.cancelled) == a
            && forall now, clock :: Reset(b, now, clock).(cancelled := {}) == Reset(a, now, clock).(cancelled := {})
  {
    var b := Apply(a, Cancel(id));
    forall now, clock
      ensures Reset(b, now, clock).(cancelled := {}) == Reset(a, now, clock).(cancelled := {})
    {
      assert forall q :: Returns(b, q) <==> Returns(a, q);
      assert Restarted(b, now) == Restarted(a, now);
    }
  }

  lemma OneShotLeaves(a: Queue, e: Event, q: nat)
    requires Idle(a) && e.Fire? && Legal(a, e)
    requires q in e.batch && a.pending[q].interval == 0
    ensures q <= a.created && q !in Next(a, e).pending
  {
    var b := Expire(a, e.now, e.alarm);
    var c := RunBatch(b, e.batch, e.callback);
    ExpireKeeps(a, e.now, e.alarm);
    BatchKeeps(b, e.batch, e.callback);
    ResetKeeps(c, e.now, e.clock);
    assert IsLive(a, q) && c.inFlight[q].interval == 0;
  }

  /** One-shot timers run in at most one batch of any run. */
  lemma OneShotFiresOnce(a: Queue, events: seq<Event>, q: nat, i: nat)
    requires Idle(a) && LegalRun(a, events)
    requires events != [] && events[0].Fire? && q in events[0].batch
    requires a.pending[q].interval == 0
    requires 0 < i < |events| && events[i].Fire?
    ensures q !in events[i].batch
  {
    OneShotLeaves(a, events[0], q);
    NextKeeps(a, events[0]);
    GoneForever(Next(a, events[0]), events[1..], q, i - 1);
  }

  /** A repeating timer of a batch is back after it, one interval after `now`, if and only if
      no callback of the batch cancels it. */
  lemma RepeatingTimerReturns(a: Queue, e: Event, q: nat)
    requires Idle(a) && e.Fire? && Legal(a, e)
    requires q in e.batch && a.pending[q].interval > 0
    ensures q in Next(a, e).pending <==> !CancelledInBatch(e.batch, e.callback, TimerId(a.issued[q], q))
    ensures q in Next(a, e).pending ==>
              Next(a, e).pending[q] == Info(e.now + a.pending[q].interval, a.pending[q].interval)
  {
    var b := Expire(a, e.now, e.alarm);
    var c := RunBatch(b, e.batch, e.callback);
    ExpireKeeps(a, e.now, e.alarm);
    BatchKeeps(b, e.batch, e.callback);
    ResetKeeps(c, e.now, e.clock);
    if CancelledInBatch(e.batch, e.callback, TimerId(a.issued[q], q)) {
      CancelInsertedDuringBatch(a, e, TimerId(a.issued[q], q));
    } else {
      if q in c.cancelled {
        BatchRecordsAsked(b, e.batch, e.callback, q);
      }
      assert Returns(c, q);
    }
    assert q in Next(a, e).pending ==> q in Restarted(c, e.now);
  }

  // ---- What is pending after a batch ----

  /** The k-th callback of a batch makes `op` as its j-th call. */
  ghost predicate Makes(batch: seq<nat>, callback: Callback, k: int, j: int, op: Op) {
    0 <= k < |batch| && 0 <= j < |callback(k, batch[k])| && callback(k, batch[k])[j] == op
  }

  /** A call of the batch after the j-th of the k-th callback cancels `id`. */
  ghost predicate CancelledAfter(batch: seq<nat>, callback: Callback, k: nat, j: nat, id: TimerId) {
    exists k', j' :: Makes(batch, callback, k', j', Cancel(id)) && (k < k' || (k == k' && j < j'))
  }

  /** No other call of the batch adds a timer at `hint`. */
  ghost predicate AddsOnceAt(batch: seq<nat>, callback: Callback, k: nat, j: nat, hint: Address) {
    forall k', j', op: Op :: Makes(batch, callback, k', j', op) && op.Add? && op.hint == hint ==> k' == k && j' == j
  }

  /** No number above `from` has the address, and no live timer. */
  ghost predicate Unused(a: Queue, from: nat, hint: Address) {
    forall q :: q in a.issued && a.issued[q] == hint ==> q <= from && !IsLive(a, q)
  }

  /** The one number above `from` with the address is `q`; its timer waits unless cancelled. */
  ghost predicate UsedOnce(a: Queue, from: nat, hint: Address, q: nat, info: Info, waits: bool) {
    && from < q <= a.created && q in a.issued && a.issued[q] == hint
    && q !in a.inFlight && (q in a.pending <==> waits) && (waits ==> a.pending[q] == info)
    && (forall r :: r in a.issued && a.issued[r] == hint && r != q ==> r <= from && !IsLive(a, r))
  }

  lemma UnusedStays(a: Queue, from: nat, hint: Address, op: Op)
    requires Inv(a) && from <= a.created && Unused(a, from, hint) && !(op.Add? && op.hint == hint)
    ensures Unused(Apply(a, op), from, hint)
  {
  }

  lemma UnusedIsTaken(a: Queue, from: nat, op: Op)
    requires Inv(a) && from <= a.created && op.Add? && Unused(a, from, op.hint)
    ensures UsedOnce(Apply(a, op), from, op.hint, a.created + 1, Info(op.when, op.interval), true)
  {
    assert !AddressInUse(a, op.hint);
    assert !IsLive(a, a.created + 1);
  }

  lemma UsedOnceStays(a: Queue, from: nat, hint: Address, q: nat, info: Info, waits: bool, op: Op)
    requires Inv(a) && UsedOnce(a, from, hint, q, info, waits) && !(op.Add? && op.hint == hint)
    ensures UsedOnce(Apply(a, op), from, hint, q, info, waits && op != Cancel(TimerId(hint, q)))
  {
  }

  lemma {:induction false} ScriptLeavesUnused(a: Queue, from: nat, hint: Address, ops: seq<Op>)
    requires Inv(a) && from <= a.created && Unused(a, from, hint)
    requires forall op :: op in ops && op.Add? ==> op.hint != hint
    ensures Unused(RunScript(a, ops), from, hint)
  {
    hide Unused, Apply;
    if ops != [] {
      var k := |ops| - 1;
      ScriptLeavesUnused(a, from, hint, ops[..k]);
      ScriptKeeps(a, ops[..k]);
      UnusedStays(RunScript(a, ops[..k]), from, hint, ops[k]);
    }
  }

  lemma {:induction false} ScriptLeavesUsed(a: Queue, from: nat, hint: Address, q: nat, info: Info, waits: bool, ops: seq<Op>)
    requires Inv(a) && UsedOnce(a, from, hint, q, info, waits)
    requires forall op :: op in ops && op.Add? ==> op.hint != hint
    ensures UsedOnce(RunScript(a, ops), from, hint, q, info, waits && Cancel(TimerId(hint, q)) !in ops)
  {
    if ops != [] {
      hide UsedOnce, Apply;
      var k := |ops| - 1;
      ScriptLeavesUsed(a, from, hint, q, info, waits, ops[..k]);
      ScriptKeeps(a, ops[..k]);
      assert ops == ops[..k] + [ops[k]];
      UsedOnceStays(RunScript(a, ops[..k]), from, hint, q, info, waits && Cancel(TimerId(hint, q)) !in ops[..k], ops[k]);
    }
  }

  lemma {:induction false} ScriptConcat(a: Queue, x: seq<Op>, y: seq<Op>)
    ensures RunScript(a, x + y) == RunScript(RunScript(a, x), y)
  {
    if y == [] {
      assert x + y == x;
    } else {
      assert (x + y)[..|x + y| - 1] == x + y[..|y| - 1];
      ScriptConcat(a, x, y[..|y| - 1]);
    }
  }

  lemma ScriptAdds(a: Queue, from: nat, ops: seq<Op>, j: nat) returns (q: nat)
    requires Inv(a) && from <= a.created && j < |ops| && ops[j].Add? && Unused(a, from, ops[j].hint)
    requires forall i :: 0 <= i < |ops| && i != j && ops[i].Add? ==> ops[i].hint != ops[j].hint
    ensures UsedOnce(RunScript(a, ops), from, ops[j].hint, q, Info(ops[j].when, ops[j].interval), Cancel(TimerId(ops[j].hint, q)) !in ops[j + 1..])
  {
    hide Unused, UsedOnce, Apply;
    var before, add, after := ops[..j], ops[j], ops[j + 1..];
    var b := RunScript(a, before);
    ScriptLeavesUnused(a, from, add.hint, before);
    ScriptKeeps(a, before);
    UnusedIsTaken(b, from, add);
    ApplyKeeps(b, add);
    q := b.created + 1;
    ScriptLeavesUsed(Apply(b, add), from, add.hint, q, Info(add.when, add.interval), true, after);
    assert ops[..j + 1][..j] == before && ops == ops[..j + 1] + after;
    ScriptConcat(a, ops[..j + 1], after);
  }

  lemma {:induction false} BatchLeavesUnused(a: Queue, from: nat, hint: Address, batch: seq<nat>, callback: Callback)
    requires Inv(a) && from <= a.created && Unused(a, from, hint)
    requires forall k, j, op: Op :: Makes(batch, callback, k, j, op) && op.Add? ==> op.hint != hint
    ensures Unused(RunBatch(a, batch, callback), from, hint)
  {
    if batch != [] {
      hide Unused, Apply;
      var last := |batch| - 1;
      var ops := callback(last, batch[last]);
      forall k, j, op: Op | Makes(batch[..last], callback, k, j, op) && op.Add?
        ensures op.hint != hint
      {
        assert Makes(batch, callback, k, j, op);
      }
      BatchLeavesUnused(a, from, hint, batch[..last], callback);
      BatchKeeps(a, batch[..last], callback);
      forall op | op in ops && op.Add?
        ensures op.hint != hint
      {
        var j :| 0 <= j < |ops| && ops[j] == op;
        assert Makes(batch, callback, last, j, op);
      }
      ScriptLeavesUnused(RunBatch(a, batch[..last], callback), from, hint, ops);
    }
  }

  lemma LastScript(batch: seq<nat>, callback: Callback, k: nat, j: nat, hint: Address)
    requires k < |batch| && AddsOnceAt(batch, callback, k, j, hint)
    ensures var last := |batch| - 1;
            var ops := callback(last, batch[last]);
            && AddsOnceAt(batch[..last], callback, k, j, hint)
            && (forall i :: 0 <= i < |ops| && (k == last ==> i != j) && ops[i].Add? ==> ops[i].hint != hint)
  {
    var last := |batch| - 1;
    var ops := callback(last, batch[last]);
    forall k', j', op: Op | Makes(batch[..last], callback, k', j', op) && op.Add? && op.hint == hint
      ensures k' == k && j' == j
    {
      assert Makes(batch, callback, k', j', op);
    }
    forall i | 0 <= i < |ops| && (k == last ==> i != j) && ops[i].Add?
      ensures ops[i].hint != hint
    {
      assert Makes(batch, callback, last, i, ops[i]);
    }
  }

  lemma CancelledAfterLast(batch: seq<nat>, callback: Callback, k: nat, j: nat, id: TimerId)
    requires k < |batch| && j < |callback(k, batch[k])|
    ensures var last := |batch| - 1;
            var ops := callback(last, batch[last]);
            CancelledAfter(batch, callback, k, j, id)
            <==> if k == last then Cancel(id) in ops[j + 1..]
                 else CancelledAfter(batch[..last], callback, k, j, id) || Cancel(id) in ops
  {
    var last := |batch| - 1;
    var ops := callback(last, batch[last]);
    if CancelledAfter(batch, callback, k, j, id) {
      var k', j' :| Makes(batch, callback, k', j', Cancel(id)) && (k < k' || (k == k' && j < j'));
      if k' == last {
        assert ops[j'] == Cancel(id) && (k == last ==> ops[j + 1..][j' - j - 1] == Cancel(id));
      } else {
        assert Makes(batch[..last], callback, k', j', Cancel(id));
      }
    }
    if k < last && CancelledAfter(batch[..last], callback, k, j, id) {
      var k', j' :| Makes(batch[..last], callback, k', j', Cancel(id)) && (k < k' || (k == k' && j < j'));
      assert Makes(batch, callback, k', j', Cancel(id));
    }
    if i :| (if k == last then j < i else 0 <= i) && i < |ops| && ops[i] == Cancel(id) {
      assert Makes(batch, callback, last, i, Cancel(id));
    }
  }

  lemma {:induction false} BatchAdds(a: Queue, from: nat, batch: seq<nat>, callback: Callback, k: nat, j: nat, add: Op) returns (q: nat)
    requires Inv(a) && from <= a.created && Makes(batch, callback, k, j, add) && add.Add? && Unused(a, from, add.hint)
    requires AddsOnceAt(batch, callback, k, j, add.hint)
    ensures UsedOnce(RunBatch(a, batch, callback), from, add.hint, q, Info(add.when, add.interval),
                     !CancelledAfter(batch, callback, k, j, TimerId(add.hint, q)))
  {
    hide Unused, UsedOnce, Apply, CancelledAfter;
    var last := |batch| - 1;
    var b, ops := RunBatch(a, batch[..last], callback), callback(last, batch[last]);
    BatchKeeps(a, batch[..last], callback);
    LastScript(batch, callback, k, j, add.hint);
    if k == last {
      forall k', j', op: Op | Makes(batch[..last], callback, k', j', op) && op.Add?
        ensures op.hint != add.hint
      {
      }
      BatchLeavesUnused(a, from, add.hint, batch[..last], callback);
      q := ScriptAdds(b, from, ops, j);
    } else {
      q := BatchAdds(a, from, batch[..last], callback, k, j, add);
      ScriptLeavesUsed(b, from, add.hint, q, Info(add.when, add.interval),
                       !CancelledAfter(batch[..last], callback, k, j, TimerId(add.hint, q)), ops);
    }
    CancelledAfterLast(batch, callback, k, j, TimerId(add.hint, q));
  }

  /** An add that a callback of a batch makes, at an address that no timer has and no other
      call of the batch asks for, issues exactly one number, and that timer is pending after
      the batch if and only if no later call of the batch cancels it. */
  lemma AddedDuringBatch(a: Queue, e: Event, k: nat, j: nat, add: Op) returns (q: nat)
    requires Idle(a) && e.Fire? && Legal(a, e)
    requires Makes(e.batch, e.callback, k, j, add) && add.Add?
    requires !AddressInUse(a, add.hint) && AddsOnceAt(e.batch, e.callback, k, j, add.hint)
    ensures var b := Next(a, e);
            && a.created < q <= b.created && q in b.issued && b.issued[q] == add.hint
            && (forall r :: a.created < r && r in b.issued && b.issued[r] == add.hint ==> r == q)
            && (q in b.pending <==> !CancelledAfter(e.batch, e.callback, k, j, TimerId(add.hint, q)))
            && (q in b.pending ==> b.pending[q] == Info(add.when, add.interval))
  {
    hide CancelledAfter;
    var b := Expire(a, e.now, e.alarm);
    ExpireKeeps(a, e.now, e.alarm);
    assert Unused(b, a.created, add.hint);
    q := BatchAdds(b, a.created, e.batch, e.callback, k, j, add);
    ResetIsEntered(RunBatch(b, e.batch, e.callback), e.now, e.clock, q);
  }

  lemma ResetIsEntered(a: Queue, now: Time, clock: Time, q: nat)
    requires q !in a.inFlight
    ensures var b := Reset(a, now, clock);
            && b.created == a.created && b.issued == a.issued
            && (q in b.pending <==> q in a.pending) && (q in a.pending ==> b.pending[q] == a.pending[q])
  {
  }

  lemma {:induction false} ScriptLeavesWaiting(a: Queue, ops: seq<Op>, q: nat)
    requires Inv(a) && q in a.pending && Cancel(TimerId(a.issued[q], q)) !in ops
    ensures var b := RunScript(a, ops); q in b.pending && b.pending[q] == a.pending[q]
  {
    if ops != [] {
      hide Apply;
      var k := |ops| - 1;
      var b := RunScript(a, ops[..k]);
      ScriptKeeps(a, ops[..k]);
      ScriptLeavesWaiting(a, ops[..k], q);
      assert b.issued[q] == a.issued[q];
      assert ops[k] in ops;
      OtherLeavesWaiting(b, ops[k], q);
    }
  }

  lemma OtherLeavesWaiting(a: Queue, op: Op, q: nat)
    requires Inv(a) && q in a.pending && op != Cancel(TimerId(a.issued[q], q))
    ensures var b := Apply(a, op); q in b.pending && b.pending[q] == a.pending[q]
  {
    assert IsLive(a, q);
  }

  lemma PrefixCancels(batch: seq<nat>, callback: Callback, id: TimerId)
    requires batch != [] && CancelledInBatch(batch[..|batch| - 1], callback, id)
    ensures CancelledInBatch(batch, callback, id)
  {
    var front := batch[..|batch| - 1];
    var i :| 0 <= i < |front| && Cancel(id) in callback(i, front[i]);
    assert Cancel(id) in callback(i, batch[i]);
  }

  lemma {:induction false} BatchLeavesWaiting(a: Queue, batch: seq<nat>, callback: Callback, q: nat)
    requires Inv(a) && q in a.pending && !CancelledInBatch(batch, callback, TimerId(a.issued[q], q))
    ensures var b := RunBatch(a, batch, callback); q in b.pending && b.pending[q] == a.pending[q]
  {
    if batch != [] {
      var k := |batch| - 1;
      var id := TimerId(a.issued[q], q);
      if CancelledInBatch(batch[..k], callback, id) {
        PrefixCancels(batch, callback, id);
      }
      BatchKeeps(a, batch[..k], callback);
      BatchLeavesWaiting(a, batch[..k], callback, q);
      ScriptLeavesWaiting(RunBatch(a, batch[..k], callback), callback(k, batch[k]), q);
    }
  }

  /** A timer inserted before the batch is pending after it if and only if no callback cancels
      it and it was not due or repeats; one that was not pending is not. */
  lemma InsertedBeforeBatch(a: Queue, e: Event, q: nat)
    requires Idle(a) && e.Fire? && Legal(a, e) && q <= a.created
    ensures q in Next(a, e).pending
       <==> && q in a.pending && !CancelledInBatch(e.batch, e.callback, TimerId(a.issued[q], q))
            && (a.pending[q].expiration > e.now || a.pending[q].interval > 0)
    ensures q in Next(a, e).pending ==>
              Next(a, e).pending[q] == if a.pending[q].expiration > e.now then a.pending[q]
                                       else Info(e.now + a.pending[q].interval, a.pending[q].interval)
  {
    hide CancelledInBatch;
    NextKeeps(a, e);
    if q in a.pending {
      var id := TimerId(a.issued[q], q);
      var b := Expire(a, e.now, e.alarm);
      ExpireKeeps(a, e.now, e.alarm);
      if CancelledInBatch(e.batch, e.callback, id) {
        CancelInsertedDuringBatch(a, e, id);
      } else if a.pending[q].expiration > e.now {
        BatchKeeps(b, e.batch, e.callback);
        BatchLeavesWaiting(b, e.batch, e.callback, q);
        ResetIsEntered(RunBatch(b, e.batch, e.callback), e.now, e.clock, q);
      } else if a.pending[q].interval > 0 {
        RepeatingTimerReturns(a, e, q);
      } else {
        OneShotLeaves(a, e, q);
      }
    } else {
      assert !IsLive(a, q);
      assert IsLive(Next(a, e), q) ==> IsLive(a, q);
    }
  }

  /** `op` is the add that `q` comes from. */
  ghost predicate Stems(a: Queue, q: nat, op: Op) {
    && op.Add? && q in a.issued && a.issued[q] == op.hint
    && q !in a.inFlight && (q in a.pending ==> a.pending[q] == Info(op.when, op.interval))
  }

  lemma StemsStays(a: Queue, q: nat, op: Op, next: Op)
    requires Inv(a) && Stems(a, q, op)
    ensures Stems(Apply(a, next), q, op)
  {
  }

  lemma StemsFromAdd(a: Queue, op: Op)
    requires Inv(a)
    ensures a.created <= Apply(a, op).created <= a.created + 1
    ensures a.created < Apply(a, op).created ==> Stems(Apply(a, op), a.created + 1, op)
  {
    assert !IsLive(a, a.created + 1);
  }

  lemma {:induction false} ScriptStays(a: Queue, ops: seq<Op>, q: nat, op: Op)
    requires Inv(a) && Stems(a, q, op)
    ensures Stems(RunScript(a, ops), q, op)
  {
    if ops != [] {
      hide Stems, Apply;
      ScriptKeeps(a, ops[..|ops| - 1]);
      ScriptStays(a, ops[..|ops| - 1], q, op);
      StemsStays(RunScript(a, ops[..|ops| - 1]), q, op, ops[|ops| - 1]);
    }
  }

  lemma {:induction false} ScriptStems(a: Queue, ops: seq<Op>, q: nat) returns (j: nat)
    requires Inv(a) && a.created < q <= RunScript(a, ops).created
    ensures j < |ops| && Stems(RunScript(a, ops), q, ops[j])
  {
    hide Stems, Apply;
    var k := |ops| - 1;
    var b := RunScript(a, ops[..k]);
    ScriptKeeps(a, ops[..k]);
    StemsFromAdd(b, ops[k]);
    if q <= b.created {
      j := ScriptStems(a, ops[..k], q);
      StemsStays(b, q, ops[j], ops[k]);
    } else {
      j := k;
    }
  }

  lemma {:induction false} BatchStems(a: Queue, batch: seq<nat>, callback: Callback, q: nat) returns (k: nat, j: nat, op: Op)
    requires Inv(a) && a.created < q <= RunBatch(a, batch, callback).created
    ensures Makes(batch, callback, k, j, op) && Stems(RunBatch(a, batch, callback), q, op)
  {
    hide Stems, Apply;
    var last := |batch| - 1;
    var b, ops := RunBatch(a, batch[..last], callback), callback(last, batch[last]);
    BatchKeeps(a, batch[..last], callback);
    if q <= b.created {
      k, j, op := BatchStems(a, batch[..last], callback, q);
      ScriptStays(b, ops, q, op);
    } else {
      k := last;
      j := ScriptStems(b, ops, q);
      op := ops[j];
    }
  }

  /** And every number that a batch issues comes from an add of one of its callbacks. */
  lemma AddedByCallback(a: Queue, e: Event, q: nat) returns (k: nat, j: nat, add: Op)
    requires Idle(a) && e.Fire? && Legal(a, e) && a.created < q <= Next(a, e).created
    ensures var b := Next(a, e);
            && Makes(e.batch, e.callback, k, j, add) && add.Add? && q in b.issued && b.issued[q] == add.hint
            && (q in b.pending ==> b.pending[q] == Info(add.when, add.interval))
  {
    var b := Expire(a, e.now, e.alarm);
    ExpireKeeps(a, e.now, e.alarm);
    k, j, add := BatchStems(b, e.batch, e.callback, q);
    ResetIsEntered(RunBatch(b, e.batch, e.callback), e.now, e.clock, q);
  }

  // ---- The kernel timer is never late ----

  ghost predicate Covered(arming: Arming, expiration: Time) {
    arming.Armed? && arming.deadline <= Max(expiration, arming.setAt + MIN_DELAY)
  }

  /** The kernel timer will go off no later than the larger of the earliest expiration and
      the minimal delay after the instant at which it was set. */
  ghost predicate AlarmSet(a: Queue) {
    forall q :: q in a.pending ==> Covered(a.arming, a.pending[q].expiration)
  }

  /** While callbacks run, only timers that `reset` will not arm for need be covered. */
  ghost predicate AlarmSetForInvalid(a: Queue) {
    forall q :: q in a.pending && a.pending[q].expiration <= 0 ==> Covered(a.arming, a.pending[q].expiration)
  }

  lemma EnterAlarm(a: Queue, address: Address, info: Info, clock: Time)
    ensures AlarmSet(a) ==> AlarmSet(Enter(a, address, info, clock))
    ensures AlarmSetForInvalid(a) ==> AlarmSetForInvalid(Enter(a, address, info, clock))
  {
    if !Precedes(info.expiration, a.pending) {
      var q :| q in a.pending && a.pending[q].expiration <= info.expiration;
    }
  }

  lemma ApplyAlarm(a: Queue, op: Op)
    ensures AlarmSet(a) ==> AlarmSet(Apply(a, op))
    ensures AlarmSetForInvalid(a) ==> AlarmSetForInvalid(Apply(a, op))
  {
    if op.Add? && !AddressInUse(a, op.hint) {
      EnterAlarm(a, op.hint, Info(op.when, op.interval), op.clock);
    }
  }

  lemma {:induction false} ScriptAlarm(a: Queue, ops: seq<Op>)
    requires AlarmSetForInvalid(a)
    ensures AlarmSetForInvalid(RunScript(a, ops))
  {
    if ops != [] {
      var k := |ops| - 1;
      ScriptAlarm(a, ops[..k]);
      ApplyAlarm(RunScript(a, ops[..k]), ops[k]);
    }
  }

  lemma {:induction false} BatchAlarm(a: Queue, batch: seq<nat>, callback: Callback)
    requires AlarmSetForInvalid(a)
    ensures AlarmSetForInvalid(RunBatch(a, batch, callback))
  {
    if batch != [] {
      var k := |batch| - 1;
      BatchAlarm(a, batch[..k], callback);
      ScriptAlarm(RunBatch(a, batch[..k], callback), callback(k, batch[k]));
    }
  }

  lemma ResetAlarm(a: Queue, now: Time, clock: Time)
    requires AlarmSetForInvalid(a) && now > 0
    ensures AlarmSet(Reset(a, now, clock))
  {
    var b := Reset(a, now, clock);
    if b.pending != map[] && Earliest(b.pending) <= 0 {
      var t := Earliest(b.pending);
      var q :| q in b.pending && b.pending[q].expiration == t;
      assert q in a.pending && Covered(a.arming, t);
    }
  }

  /** Through adds, cancels, empty batches and callbacks doing either, whenever the loop is
      between events and timers are pending, the kernel timer is set in time. */
  lemma {:induction false} RunAlarm(a: Queue, events: seq<Event>)
    requires AlarmSet(a) && LegalRun(a, events)
    ensures AlarmSet(Run(a, events))
    decreases events
  {
    if events != [] {
      match events[0] {
        case Call(op) =>
          ApplyAlarm(a, op);
        case Fire(now, alarm, batch, callback, clock) =>
          var b := Expire(a, now, alarm);
          assert AlarmSetForInvalid(b);
          BatchAlarm(b, batch, callback);
          ResetAlarm(RunBatch(b, batch, callback), now, clock);
      }
      RunAlarm(Next(a, events[0]), events[1..]);
    }
  }

  // ---- Nor is it early ----

  /** The kernel timer is set for `t` exactly, or, when that is too soon, for 100 microseconds
      after it was set. */
  ghost predicate ArmedFor(arming: Arming, t: Time) {
    && arming.Armed? && arming.deadline >= t && arming.deadline >= arming.setAt + 100
    && (arming.deadline == t || arming.deadline == arming.setAt + 100)
  }

  lemma ArmIsExact(t: Time, clock: Time)
    ensures ArmedFor(Arm(t, clock), t) && Arm(t, clock).setAt == clock
  {
  }

  /** Whenever the earliest expiration is a valid time, the kernel timer is set for it. */
  ghost predicate AlarmExact(a: Queue) {
    forall t :: IsEarliest(t, a.pending) && t > 0 ==> ArmedFor(a.arming, t)
  }

  lemma AddAlarmExact(a: Queue, op: Op)
    requires Inv(a) && AlarmExact(a) && op.Add?
    ensures AlarmExact(Apply(a, op))
    ensures !AddressInUse(a, op.hint) && Precedes(op.when, a.pending) ==>
              ArmedFor(Apply(a, op).arming, op.when) && Apply(a, op).arming.setAt == op.clock
  {
    hide ArmedFor, Arm;
    var b := Apply(a, op);
    ArmIsExact(op.when, op.clock);
    assert !IsLive(a, a.created + 1);
    if b != a {
      assert b.pending[b.created] == Info(op.when, op.interval);
      forall t | IsEarliest(t, b.pending) && t > 0
        ensures ArmedFor(b.arming, t)
      {
        if Precedes(op.when, a.pending) {
          assert t == op.when;
        } else {
          FromOthers(a.pending, b.created, Info(op.when, op.interval), t);
        }
      }
    }
  }

  lemma FromOthers(m: map<nat, Info>, q: nat, info: Info, t: Time)
    requires q !in m && !Precedes(info.expiration, m) && IsEarliest(t, m[q := info])
    ensures IsEarliest(t, m)
  {
    var m' := m[q := info];
    var other :| other in m && m[other].expiration <= info.expiration;
    assert m'[other] == m[other];
    var first :| first in m' && m'[first].expiration == t;
    if first == q {
      assert m[other].expiration == t;
    } else {
      assert m[first].expiration == t;
    }
    forall r | r in m
      ensures t <= m[r].expiration
    {
      assert m'[r] == m[r];
    }
  }

  lemma EarliestIsOne(m: map<nat, Info>, t: Time, u: Time)
    requires IsEarliest(t, m) && IsEarliest(u, m)
    ensures t == u
  {
  }

  lemma ResetAlarmExact(a: Queue, now: Time, clock: Time)
    ensures AlarmExact(Reset(a, now, clock))
  {
    hide ArmedFor, Arm;
    var b := Reset(a, now, clock);
    forall t | IsEarliest(t, b.pending) && t > 0
      ensures ArmedFor(b.arming, t)
    {
      assert b.pending != map[];
      EarliestIsOne(b.pending, t, Earliest(b.pending));
      ArmIsExact(t, clock);
    }
  }

  /** Over every run without a cancel between batches, the kernel timer is set for the earliest
      expiration; whatever the callbacks do, it is after each batch. */
  lemma {:induction false} RunAlarmExact(a: Queue, events: seq<Event>)
    requires Idle(a) && AlarmExact(a) && LegalRun(a, events)
    requires forall e: Event :: e in events && e.Call? ==> e.op.Add?
    ensures AlarmExact(Run(a, events))
    decreases events
  {
    if events != [] {
      hide AlarmExact, Apply, Reset, Expire;
      assert events[0] in events;
      NextKeeps(a, events[0]);
      match events[0] {
        case Call(op) => AddAlarmExact(a, op);
        case Fire(now, alarm, batch, callback, clock) =>
          ResetAlarmExact(RunBatch(Expire(a, now, alarm), batch, callback), now, clock);
      }
      RunAlarmExact(Next(a, events[0]), events[1..]);
    }
  }

  /** The relative delay handed to the kernel, split into seconds and nanoseconds. */
  function HowMuchTimeFromNow(when: Time, clock: Time): (ts: (int, int))
    ensures 0 <= ts.1 < 1_000_000_000
    ensures Armed(clock + (ts.0 * 1_000_000 + ts.1 / 1000), clock) == Arm(when, clock)
    ensures ts.1 % 1000 == 0
  {
    var microseconds := Max(MIN_DELAY, when - clock);
    (microseconds / 1_000_000, (microseconds % 1_000_000) * 1000)
  }
}
