/**
 The timer queue as it is built: timers live on a heap whose addresses are reused,
 an ordered set gives the expirations, a second set finds a timer by the pointer and
 sequence number of its TimerId, and timers are deleted by hand.

 The class keeps a ghost copy of the queue of `TimerSpec` and every method is proved to
 do to it what the specification says; the source's own assertions are the `assert`
 statements of the bodies, and reading a heap cell requires it to be allocated.
 */
module TimerQueues {
  import opened TimerSpec

  /** A heap-allocated timer; `repeat()` is a positive interval. */
  datatype Timer = Timer(expiration: Time, interval: nat, sequence: nat)

  datatype Entry = Entry(when: Time, timer: Address)

  /** The order of `std::pair<Timestamp, Timer*>`. */
  predicate Less(e: Entry, when: Time, address: nat) {
    e.when < when || (e.when == when && e.timer < address)
  }

  ghost predicate Sorted(s: seq<Entry>) {
    forall i, j :: 0 <= i < j < |s| ==> Less(s[i], s[j].when, s[j].timer)
  }

  /** `std::set::lower_bound` on an ordered set, as an index. */
  function LowerBound(s: seq<Entry>, when: Time, address: nat): (k: nat)
    requires Sorted(s)
    ensures k <= |s|
    ensures forall i :: 0 <= i < k ==> Less(s[i], when, address)
    ensures forall i :: k <= i < |s| ==> !Less(s[i], when, address)
  {
    if s == [] || !Less(s[0], when, address) then 0 else 1 + LowerBound(s[1..], when, address)
  }

  /** `std::set::insert` of an absent element. */
  function InsertEntry(s: seq<Entry>, e: Entry): (r: seq<Entry>)
    requires Sorted(s) && e !in s
    ensures Sorted(r)
    ensures forall x :: x in r <==> x in s || x == e
    ensures |r| == |s| + 1
  {
    var k := LowerBound(s, e.when, e.timer);
    s[..k] + [e] + s[k..]
  }

  /** `std::set::erase` of an element that is present. */
  function EraseEntry(s: seq<Entry>, e: Entry): (r: seq<Entry>)
    requires Sorted(s) && e in s
    ensures Sorted(r)
    ensures forall x :: x in r <==> x in s && x != e
    ensures |r| == |s| - 1
  {
    var k := LowerBound(s, e.when, e.timer);
    assert s[k] == e by {
      var j :| 0 <= j < |s| && s[j] == e;
      assert !Less(s[j], e.when, e.timer);
      assert forall i :: 0 <= i < j ==> Less(s[i], e.when, e.timer);
    }
    s[..k] + s[k + 1..]
  }

  lemma {:induction false} SameSize(timers: seq<Entry>, active: set<TimerId>, sequenceOf: map<Address, nat>)
    requires Sorted(timers)
    requires forall e :: e in timers ==> e.timer in sequenceOf
    requires forall e, f :: e in timers && f in timers && e.timer == f.timer ==> e == f
    requires forall id :: id in active <==> exists e :: e in timers && id == TimerId(e.timer, sequenceOf[e.timer])
    ensures |timers| == |active|
    decreases |timers|
  {
    if timers == [] {
      assert active == {};
    } else {
      var e := timers[0];
      var id := TimerId(e.timer, sequenceOf[e.timer]);
      assert id in active;
      forall x | x in active - {id}
        ensures exists f :: f in timers[1..] && x == TimerId(f.timer, sequenceOf[f.timer])
      {
        var f :| f in timers && x == TimerId(f.timer, sequenceOf[f.timer]);
        assert f in timers[1..];
      }
      forall f | f in timers[1..] ensures TimerId(f.timer, sequenceOf[f.timer]) in active - {id} {
        assert f in timers && f != e;
      }
      SameSize(timers[1..], active - {id}, sequenceOf);
    }
  }

  /** The heap holds exactly the live timers of the specification. */
  ghost predicate HeapMatches(heap: map<Address, Timer>, spec: Queue) {
    && (forall q :: q in spec.pending ==>
          && q in spec.issued && spec.issued[q] in heap
          && heap[spec.issued[q]] == Timer(spec.pending[q].expiration, spec.pending[q].interval, q))
    && (forall q :: q in spec.inFlight ==>
          && q in spec.issued && spec.issued[q] in heap
          && heap[spec.issued[q]] == Timer(spec.inFlight[q].expiration, spec.inFlight[q].interval, q))
    && (forall p :: p in heap ==>
          && IsLive(spec, heap[p].sequence)
          && heap[p].sequence in spec.issued && spec.issued[heap[p].sequence] == p)
  }

  /** Both sets list the pending timers, one by expiration and one by identity. */
  ghost predicate SetsMatch(heap: map<Address, Timer>, timers: seq<Entry>, active: set<TimerId>, spec: Queue) {
    && Sorted(timers)
    && (forall e :: e in timers <==>
          e.timer in heap && heap[e.timer].sequence in spec.pending && heap[e.timer].expiration == e.when)
    && (forall id :: id in active <==>
          id.address in heap && heap[id.address].sequence == id.sequence && id.sequence in spec.pending)
  }

  ghost predicate Matches(heap: map<Address, Timer>, timers: seq<Entry>, active: set<TimerId>, spec: Queue) {
    Inv(spec) && HeapMatches(heap, spec) && SetsMatch(heap, timers, active, spec)
  }

  /** Cancellations recorded by pointer and number are those the specification records. */
  ghost predicate CancelingMatches(canceling: set<TimerId>, spec: Queue) {
    forall q :: q in spec.inFlight && q in spec.issued ==>
      (q in spec.cancelled <==> TimerId(spec.issued[q], q) in canceling)
  }

  /** The two sets have the same size, as the source asserts on entry to and exit from
      every operation. */
  lemma SizesAgree(heap: map<Address, Timer>, timers: seq<Entry>, active: set<TimerId>, spec: Queue)
    requires Matches(heap, timers, active, spec)
    ensures |timers| == |active|
  {
    var sequenceOf := map p | p in heap :: heap[p].sequence;
    forall id | id in active
      ensures exists e :: e in timers && id == TimerId(e.timer, sequenceOf[e.timer])
    {
      assert Entry(heap[id.address].expiration, id.address) in timers;
    }
    SameSize(timers, active, sequenceOf);
  }

  lemma ArmingIsFree(heap: map<Address, Timer>, timers: seq<Entry>, active: set<TimerId>, spec: Queue, after: Queue)
    requires Matches(heap, timers, active, spec)
    requires after == spec.(arming := after.arming, calling := after.calling, cancelled := after.cancelled)
    ensures Matches(heap, timers, active, after)
  {
    assert forall r :: IsLive(after, r) <==> IsLive(spec, r);
  }

  /** The specification's queue once detached timer q is entered. */
  function Entered(spec: Queue, q: nat): Queue
    requires q in spec.inFlight
  {
    spec.(pending := spec.pending[q := spec.inFlight[q]], inFlight := spec.inFlight - {q})
  }

  lemma FirstIsEarliest(heap: map<Address, Timer>, timers: seq<Entry>, active: set<TimerId>, spec: Queue, when: Time)
    requires Matches(heap, timers, active, spec)
    ensures Precedes(when, spec.pending) == (timers == [] || when < timers[0].when)
    ensures timers == [] <==> spec.pending == map[]
    ensures timers != [] ==>
      && timers[0].timer in heap && heap[timers[0].timer].expiration == timers[0].when
      && IsEarliest(timers[0].when, spec.pending)
  {
    forall q | q in spec.pending ensures Entry(spec.pending[q].expiration, spec.issued[q]) in timers {
    }
    if timers != [] {
      var e := timers[0];
      assert e in timers;
      assert spec.pending[heap[e.timer].sequence].expiration == e.when;
      forall q | q in spec.pending ensures e.when <= spec.pending[q].expiration {
        var i :| 0 <= i < |timers| && timers[i] == Entry(spec.pending[q].expiration, spec.issued[q]);
      }
    }
  }

  lemma EnterMatches(heap: map<Address, Timer>, timers: seq<Entry>, active: set<TimerId>, spec: Queue, p: Address)
    requires Matches(heap, timers, active, spec)
    requires p in heap && heap[p].sequence in spec.inFlight
    ensures Sorted(timers)
    ensures var timer := heap[p];
            && Entry(timer.expiration, p) !in timers
            && TimerId(p, timer.sequence) !in active
            && Matches(heap, InsertEntry(timers, Entry(timer.expiration, p)),
                       active + {TimerId(p, timer.sequence)}, Entered(spec, timer.sequence))
  {
    var after := Entered(spec, heap[p].sequence);
    assert forall r :: IsLive(after, r) <==> IsLive(spec, r);
  }

  /** The specification's queue once a timer object is allocated and not yet inserted. */
  function Detached(spec: Queue, address: Address, info: Info): Queue {
    var q := spec.created + 1;
    spec.(created := q, issued := spec.issued[q := address], inFlight := spec.inFlight[q := info])
  }

  lemma LiveAddresses(heap: map<Address, Timer>, timers: seq<Entry>, active: set<TimerId>, spec: Queue, p: Address)
    requires Matches(heap, timers, active, spec)
    ensures Inv(spec)
    ensures AddressInUse(spec, p) <==> p in heap
  {
  }

  lemma AllocateKeepsInv(heap: map<Address, Timer>, spec: Queue, p: Address, info: Info)
    requires Inv(spec) && HeapMatches(heap, spec) && p !in heap
    ensures Inv(Detached(spec, p, info)) && !IsLive(spec, spec.created + 1)
    ensures forall r :: IsLive(Detached(spec, p, info), r) <==> IsLive(spec, r) || r == spec.created + 1
  {
    var after := Detached(spec, p, info);
    assert !IsLive(spec, after.created);
    assert forall r :: IsLive(after, r) <==> IsLive(spec, r) || r == after.created;
    forall r, t | IsLive(after, r) && IsLive(after, t) && r != t ensures after.issued[r] != after.issued[t] {
      assert IsLive(spec, r) || IsLive(spec, t);
    }
  }

  lemma AllocateMatches(heap: map<Address, Timer>, timers: seq<Entry>, active: set<TimerId>, spec: Queue, p: Address, info: Info)
    requires Matches(heap, timers, active, spec) && p !in heap
    ensures Matches(heap[p := Timer(info.expiration, info.interval, spec.created + 1)], timers, active, Detached(spec, p, info))
  {
    AllocateKeepsInv(heap, spec, p, info);
    hide HeapMatches, SetsMatch, Inv, IsLive;
    AllocateHeap(heap, spec, p, info);
    AllocateSets(heap, timers, active, spec, p, info);
  }

  lemma AllocateHeap(heap: map<Address, Timer>, spec: Queue, p: Address, info: Info)
    requires Inv(spec) && HeapMatches(heap, spec) && p !in heap && !IsLive(spec, spec.created + 1)
    requires forall r :: IsLive(Detached(spec, p, info), r) <==> IsLive(spec, r) || r == spec.created + 1
    ensures HeapMatches(heap[p := Timer(info.expiration, info.interval, spec.created + 1)], Detached(spec, p, info))
  {
  }

  lemma AllocateSets(heap: map<Address, Timer>, timers: seq<Entry>, active: set<TimerId>, spec: Queue, p: Address, info: Info)
    requires SetsMatch(heap, timers, active, spec) && p !in heap && !IsLive(spec, spec.created + 1)
    ensures SetsMatch(heap[p := Timer(info.expiration, info.interval, spec.created + 1)], timers, active, Detached(spec, p, info))
  {
    var heap' := heap[p := Timer(info.expiration, info.interval, spec.created + 1)];
    assert forall a :: a in heap' && heap'[a].sequence in spec.pending ==> a in heap && heap'[a] == heap[a];
  }

  /** The next sequence number is not in flight. */
  lemma FreshNumber(heap: map<Address, Timer>, timers: seq<Entry>, active: set<TimerId>, spec: Queue, p: Address, info: Info)
    requires Matches(heap, timers, active, spec)
    ensures spec.created + 1 !in spec.inFlight
    ensures Entered(Detached(spec, p, info), spec.created + 1).inFlight == spec.inFlight
  {
    assert !IsLive(spec, spec.created + 1);
  }

  /** Allocating a timer and entering it is the add of the specification. */
  lemma AddIsEntered(spec: Queue, p: Address, info: Info, clock: Time)
    requires !AddressInUse(spec, p) && spec.created + 1 !in spec.inFlight
    ensures var after := Entered(Detached(spec, p, info), spec.created + 1);
            Apply(spec, Add(p, info.expiration, info.interval, clock))
              == after.(arming := if Precedes(info.expiration, spec.pending) then Arm(info.expiration, clock) else spec.arming)
  {
    hide Precedes, Arm;
    assert Entered(Detached(spec, p, info), spec.created + 1).inFlight == spec.inFlight;
  }

  lemma DropHeap(heap: map<Address, Timer>, spec: Queue, id: TimerId)
    requires Inv(spec) && HeapMatches(heap, spec)
    requires id.sequence in spec.pending && spec.issued[id.sequence] == id.address
    ensures HeapMatches(heap - {id.address}, spec.(pending := spec.pending - {id.sequence}))
  {
    var after := spec.(pending := spec.pending - {id.sequence});
    forall p | p in heap - {id.address} ensures IsLive(after, heap[p].sequence) {
      assert heap[p].sequence != id.sequence;
    }
    forall q | IsLive(after, q) ensures spec.issued[q] in heap - {id.address} {
      assert IsLive(spec, q) && IsLive(spec, id.sequence);
    }
  }

  lemma DropSets(heap: map<Address, Timer>, timers: seq<Entry>, active: set<TimerId>, spec: Queue, id: TimerId)
    requires HeapMatches(heap, spec) && SetsMatch(heap, timers, active, spec) && id in active
    requires Entry(heap[id.address].expiration, id.address) in timers
    ensures SetsMatch(heap - {id.address}, EraseEntry(timers, Entry(heap[id.address].expiration, id.address)),
                      active - {id}, spec.(pending := spec.pending - {id.sequence}))
  {
    hide IsLive;
    var heap', after := heap - {id.address}, spec.(pending := spec.pending - {id.sequence});
    assert forall a :: a in heap' && heap'[a].sequence in spec.pending ==> heap'[a].sequence in after.pending;
  }

  lemma DropMatches(heap: map<Address, Timer>, timers: seq<Entry>, active: set<TimerId>, spec: Queue, id: TimerId)
    requires Matches(heap, timers, active, spec) && id in active
    ensures Sorted(timers) && id.address in heap
    ensures Entry(heap[id.address].expiration, id.address) in timers
    ensures Apply(spec, Cancel(id)) == spec.(pending := spec.pending - {id.sequence})
    ensures Matches(heap - {id.address}, EraseEntry(timers, Entry(heap[id.address].expiration, id.address)),
                    active - {id}, Apply(spec, Cancel(id)))
  {
    var after := spec.(pending := spec.pending - {id.sequence});
    var heap' := heap - {id.address};
    var entry := Entry(heap[id.address].expiration, id.address);
    assert id.sequence in spec.pending && spec.issued[id.sequence] == id.address;
    assert Apply(spec, Cancel(id)) == after;
    ApplyKeeps(spec, Cancel(id));
    DropHeap(heap, spec, id);
    DropSets(heap, timers, active, spec, id);
  }

  lemma RecordMatches(heap: map<Address, Timer>, timers: seq<Entry>, active: set<TimerId>,
                      canceling: set<TimerId>, spec: Queue, id: TimerId)
    requires Matches(heap, timers, active, spec) && CancelingMatches(canceling, spec) && id !in active
    ensures Matches(heap, timers, active, Apply(spec, Cancel(id)))
    ensures spec.calling ==> CancelingMatches(canceling + {id}, Apply(spec, Cancel(id)))
    ensures !spec.calling ==> Apply(spec, Cancel(id)) == spec
  {
    var after := Apply(spec, Cancel(id));
    assert after == spec.(cancelled := after.cancelled);
    ArmingIsFree(heap, timers, active, spec, after);
  }

  /** The specification's queue once the timers due by `now` have left the sets. */
  ghost function Split(spec: Queue, now: Time): Queue {
    spec.(pending := map q | q in spec.pending && now < spec.pending[q].expiration :: spec.pending[q],
          inFlight := map q | q in spec.pending && spec.pending[q].expiration <= now :: spec.pending[q])
  }

  /** The identities of a list of entries. */
  ghost function Ids(heap: map<Address, Timer>, entries: seq<Entry>): set<TimerId>
    requires forall e :: e in entries ==> e.timer in heap
  {
    set e | e in entries :: TimerId(e.timer, heap[e.timer].sequence)
  }

  /** `expired` and `batch` list the same in-flight timers, by entry and by sequence number. */
  ghost predicate SameBatch(spec: Queue, expired: seq<Entry>, batch: seq<nat>) {
    && |batch| == |expired|
    && (forall i :: 0 <= i < |batch| ==>
          && batch[i] in spec.inFlight && batch[i] in spec.issued
          && spec.issued[batch[i]] == expired[i].timer)
  }

  lemma SplitMatches(heap: map<Address, Timer>, timers: seq<Entry>, active: set<TimerId>, spec: Queue, now: Time, k: nat)
    requires Matches(heap, timers, active, spec) && spec.inFlight == map[]
    requires k <= |timers|
    requires forall i :: 0 <= i < k ==> timers[i].when <= now
    requires forall i :: k <= i < |timers| ==> now < timers[i].when
    ensures Matches(heap, timers[k..], active - Ids(heap, timers[..k]), Split(spec, now))
  {
    var after := Split(spec, now);
    assert forall r :: IsLive(after, r) <==> IsLive(spec, r);
    forall e
      ensures e in timers[k..] <==>
              e.timer in heap && heap[e.timer].sequence in after.pending && heap[e.timer].expiration == e.when
    {
      if e in timers {
        var i :| 0 <= i < |timers| && timers[i] == e;
      }
    }
    forall id
      ensures id in active - Ids(heap, timers[..k]) <==>
              id.address in heap && heap[id.address].sequence == id.sequence && id.sequence in after.pending
    {
      if id in active {
        var e := Entry(heap[id.address].expiration, id.address);
        assert e in timers;
        var i :| 0 <= i < |timers| && timers[i] == e;
        if i < k { assert e in timers[..k]; }
      }
    }
  }

  lemma EntriesAreActive(heap: map<Address, Timer>, timers: seq<Entry>, active: set<TimerId>, spec: Queue)
    requires Matches(heap, timers, active, spec)
    ensures Sorted(timers)
    ensures forall e :: e in timers ==> e.timer in heap && TimerId(e.timer, heap[e.timer].sequence) in active
    ensures forall i, j :: 0 <= i < j < |timers| ==> timers[i].timer != timers[j].timer
  {
    assert forall i :: 0 <= i < |timers| ==> timers[i] in timers;
  }

  lemma EntriesListHeap(heap: map<Address, Timer>, timers: seq<Entry>, active: set<TimerId>, spec: Queue)
    requires Matches(heap, timers, active, spec) && spec.inFlight == map[]
    ensures forall p :: p in heap ==> exists i :: 0 <= i < |timers| && timers[i].timer == p
  {
    assert forall p :: p in heap ==> Entry(heap[p].expiration, p) in timers;
  }

  lemma SplitFrame(spec: Queue, now: Time)
    ensures Split(spec, now).calling == spec.calling
    ensures Split(spec, now).created == spec.created
    ensures Split(spec, now).arming == spec.arming
  {
  }

  lemma BatchIsOrdered(heap: map<Address, Timer>, timers: seq<Entry>, active: set<TimerId>, spec: Queue,
                       now: Time, k: nat, batch: seq<nat>)
    requires Matches(heap, timers, active, spec) && spec.inFlight == map[]
    requires k <= |timers|
    requires forall i :: 0 <= i < k ==> timers[i].when <= now
    requires forall i :: k <= i < |timers| ==> now < timers[i].when
    requires |batch| == k
    requires forall i :: 0 <= i < k ==> timers[i].timer in heap && batch[i] == heap[timers[i].timer].sequence
    ensures IsBatch(spec, now, batch)
    ensures SameBatch(Split(spec, now), timers[..k], batch)
  {
    assert forall i :: 0 <= i < k ==> timers[i] in timers;
    assert forall i :: 0 <= i < k ==>
      batch[i] in spec.pending && spec.pending[batch[i]].expiration == timers[i].when && spec.issued[batch[i]] == timers[i].timer;
    forall q | q in spec.pending && spec.pending[q].expiration <= now ensures q in batch {
      var e := Entry(spec.pending[q].expiration, spec.issued[q]);
      assert e in timers;
      var i :| 0 <= i < |timers| && timers[i] == e;
      assert batch[i] == q;
    }
    forall i, j | 0 <= i < j < |batch| ensures batch[i] != batch[j] {
      assert Less(timers[i], timers[j].when, timers[j].timer);
    }
  }

  lemma RestartMatches(heap: map<Address, Timer>, timers: seq<Entry>, active: set<TimerId>, spec: Queue, p: Address, when: Time)
    requires Matches(heap, timers, active, spec)
    requires p in heap && heap[p].sequence in spec.inFlight
    ensures var timer := heap[p].(expiration := when);
            Matches(heap[p := timer], timers, active,
                    spec.(inFlight := spec.inFlight[timer.sequence := Info(when, timer.interval)]))
  {
    var after := spec.(inFlight := spec.inFlight[heap[p].sequence := Info(when, heap[p].interval)]);
    assert forall r :: IsLive(after, r) <==> IsLive(spec, r);
    var heap' := heap[p := heap[p].(expiration := when)];
    assert HeapMatches(heap', after);
    assert forall a :: a in heap' && heap'[a].sequence in after.pending ==> heap'[a] == heap[a];
  }

  lemma DeleteMatches(heap: map<Address, Timer>, timers: seq<Entry>, active: set<TimerId>, spec: Queue, p: Address)
    requires Matches(heap, timers, active, spec)
    requires p in heap && heap[p].sequence in spec.inFlight
    ensures Matches(heap - {p}, timers, active, spec.(inFlight := spec.inFlight - {heap[p].sequence}))
  {
    var after := spec.(inFlight := spec.inFlight - {heap[p].sequence});
    assert forall r :: IsLive(after, r) <==> IsLive(spec, r) && r != heap[p].sequence;
  }

  /** The object of an in-flight timer has not been deleted. */
  lemma InFlightCell(heap: map<Address, Timer>, timers: seq<Entry>, active: set<TimerId>, spec: Queue, q: nat)
    requires Matches(heap, timers, active, spec) && q in spec.inFlight
    ensures q in spec.issued && spec.issued[q] in heap
    ensures heap[spec.issued[q]] == Timer(spec.inFlight[q].expiration, spec.inFlight[q].interval, q)
  {
  }

  /** The specification's queue once `reset` has dealt with the timers in `done`. */
  ghost function ResetPart(spec: Queue, done: set<nat>, now: Time): Queue {
    spec.(pending := spec.pending + map q | q in done && Returns(spec, q) :: Info(now + spec.inFlight[q].interval, spec.inFlight[q].interval),
          inFlight := spec.inFlight - done)
  }

  lemma ResetOne(spec: Queue, done: set<nat>, q: nat, now: Time)
    requires Inv(spec) && q in spec.inFlight && q !in done
    ensures var before := ResetPart(spec, done, now);
            && q in before.inFlight && before.inFlight[q] == spec.inFlight[q]
            && ResetPart(spec, done + {q}, now) ==
               if Returns(spec, q)
               then var restarted := before.(inFlight := before.inFlight[q := Info(now + spec.inFlight[q].interval, spec.inFlight[q].interval)]);
                    Entered(restarted, q)
               else before.(inFlight := before.inFlight - {q})
  {
    var before, after := ResetPart(spec, done, now), ResetPart(spec, done + {q}, now);
    assert after.inFlight == before.inFlight - {q};
    if Returns(spec, q) {
      var info := Info(now + spec.inFlight[q].interval, spec.inFlight[q].interval);
      assert before.inFlight[q := info] - {q} == before.inFlight - {q};
      assert after.pending == before.pending[q := info];
    } else {
      assert after.pending == before.pending;
    }
  }

  lemma ResetNone(spec: Queue, now: Time)
    ensures ResetPart(spec, {}, now) == spec
  {
  }

  lemma ResetAll(spec: Queue, done: set<nat>, now: Time, clock: Time)
    requires forall q :: q in spec.inFlight <==> q in done
    ensures var part := ResetPart(spec, done, now);
            TimerSpec.Reset(spec, now, clock) ==
            part.(calling := false,
                  arming := if part.pending != map[] && Earliest(part.pending) > 0 then Arm(Earliest(part.pending), clock) else spec.arming)
  {
    assert ResetPart(spec, done, now).pending == TimerSpec.Reset(spec, now, clock).pending;
    assert ResetPart(spec, done, now).inFlight == map[];
  }

  lemma CancelingDecides(canceling: set<TimerId>, spec: Queue, q: nat)
    requires CancelingMatches(canceling, spec) && q in spec.inFlight && q in spec.issued
    ensures Returns(spec, q) <==> spec.inFlight[q].interval > 0 && TimerId(spec.issued[q], q) !in canceling
  {
  }

  lemma ExpireIsSplit(spec: Queue, now: Time, alarm: bool)
    ensures Expire(spec, now, alarm) ==
            Split(spec.(arming := if alarm then Disarmed else spec.arming), now).(calling := true, cancelled := {})
  {
  }

  lemma ResetIgnoresCalling(spec: Queue, now: Time, clock: Time)
    ensures TimerSpec.Reset(spec.(calling := false), now, clock) == TimerSpec.Reset(spec, now, clock)
  {
    var quiet := spec.(calling := false);
    assert forall q :: Returns(quiet, q) <==> Returns(spec, q);
    assert Restarted(quiet, now) == Restarted(spec, now);
  }

  lemma CallingIsFree(spec: Queue, canceling: set<TimerId>, expired: seq<Entry>, batch: seq<nat>)
    requires CancelingMatches(canceling, spec) && SameBatch(spec, expired, batch)
    ensures CancelingMatches(canceling, spec.(calling := false)) && SameBatch(spec.(calling := false), expired, batch)
  {
  }

  /** The batch taken out of the sets is the batch the specification runs. */
  lemma BatchOfExpire(spec: Queue, now: Time, alarm: bool, expired: seq<Entry>, batch: seq<nat>)
    requires var armed := spec.(arming := if alarm then Disarmed else spec.arming);
             IsBatch(armed, now, batch) && SameBatch(Split(armed, now), expired, batch)
    ensures IsBatch(spec, now, batch)
    ensures SameBatch(Expire(spec, now, alarm), expired, batch)
    ensures forall q :: q in Expire(spec, now, alarm).inFlight <==> q in batch
    ensures forall i, j :: 0 <= i < j < |batch| ==> batch[i] != batch[j]
    ensures |batch| == |expired|
  {
  }

  lemma BatchCell(heap: map<Address, Timer>, timers: seq<Entry>, active: set<TimerId>, spec: Queue,
                  expired: seq<Entry>, batch: seq<nat>, i: nat)
    requires Matches(heap, timers, active, spec) && SameBatch(spec, expired, batch) && i < |batch|
    ensures Inv(spec)
    ensures expired[i].timer in heap && heap[expired[i].timer].sequence == batch[i]
  {
    InFlightCell(heap, timers, active, spec, batch[i]);
  }

  /** Callbacks neither delete nor re-identify the timers of the running batch. */
  lemma CallbackKeepsBatch(spec: Queue, ops: seq<Op>, expired: seq<Entry>, batch: seq<nat>)
    requires Inv(spec) && SameBatch(spec, expired, batch)
    ensures SameBatch(RunScript(spec, ops), expired, batch)
    ensures RunScript(spec, ops).inFlight == spec.inFlight
    ensures RunScript(spec, ops).calling == spec.calling
  {
    ScriptKeeps(spec, ops);
  }

  class TimerQueue {
    var heap: map<Address, Timer>      // the live timer objects
    var timers: seq<Entry>             // std::set<Entry>, in its order
    var active: set<TimerId>           // std::set<ActiveTimer>
    var calling: bool
    var canceling: set<TimerId>
    var numCreated: nat                // Timer::s_numCreated_
    var arming: Arming
    ghost var spec: Queue

    ghost predicate Consistent()
      reads this
    {
      && Matches(heap, timers, active, spec)
      && calling == spec.calling
      && numCreated == spec.created
      && arming == spec.arming
    }

    ghost predicate Valid()
      reads this
    {
      Consistent() && CancelingMatches(canceling, spec)
    }

    constructor ()
      ensures Valid() && Idle(spec)
      ensures spec == Queue(map[], map[], false, {}, map[], 0, Disarmed)
    {
      heap, timers, active, calling, canceling := map[], [], {}, false, {};
      numCreated, arming := 0, Disarmed;
      spec := Queue(map[], map[], false, {}, map[], 0, Disarmed);
    }

    /** Moves a live timer that is in neither set into both. */
    method Insert(p: Address) returns (earliestChanged: bool)
      requires Consistent() && p in heap && heap[p].sequence in spec.inFlight
      modifies this`timers, this`active, this`spec
      ensures Consistent()
      ensures earliestChanged == Precedes(heap[p].expiration, old(spec.pending))
      ensures spec == Entered(old(spec), heap[p].sequence)
    {
      hide Matches;
      SizesAgree(heap, timers, active, spec);
      assert |timers| == |active|;
      FirstIsEarliest(heap, timers, active, spec, heap[p].expiration);
      EnterMatches(heap, timers, active, spec, p);
      var when, sequence := heap[p].expiration, heap[p].sequence;
      earliestChanged := timers == [] || when < timers[0].when;
      assert Entry(when, p) !in timers;
      timers := InsertEntry(timers, Entry(when, p));
      assert TimerId(p, sequence) !in active;
      active := active + {TimerId(p, sequence)};
      spec := Entered(spec, sequence);
      SizesAgree(heap, timers, active, spec);
      assert |timers| == |active|;
    }

    method AddTimerInLoop(p: Address, clock: Time)
      requires Consistent() && p in heap && heap[p].sequence in spec.inFlight
      modifies this`timers, this`active, this`spec, this`arming
      ensures Consistent()
      ensures var info := old(spec).inFlight[heap[p].sequence];
              spec == Entered(old(spec), heap[p].sequence).(
                        arming := if Precedes(heap[p].expiration, old(spec.pending)) then Arm(heap[p].expiration, clock)
                                  else old(spec.arming))
    {
      hide Matches;
      var earliestChanged := Insert(p);
      if earliestChanged {
        arming := Arm(heap[p].expiration, clock);
      }
      ghost var before := spec;
      spec := spec.(arming := arming);
      ArmingIsFree(heap, timers, active, before, spec);
    }

    /** `addTimer` called in the loop thread; the allocation fails when `hint` is taken. */
    method AddTimer(hint: Address, when: Time, interval: nat, clock: Time) returns (ok: bool, id: TimerId)
      requires Valid()
      modifies this
      ensures Valid()
      ensures spec == Apply(old(spec), Add(hint, when, interval, clock))
      ensures spec.calling == old(spec.calling) && spec.inFlight == old(spec.inFlight)
      ensures ok ==> id == TimerId(hint, spec.created) && spec.created == old(spec.created) + 1
      ensures !ok ==> hint in old(heap) && spec == old(spec)
    {
      hide Matches, AddressInUse, Precedes, Arm;
      LiveAddresses(heap, timers, active, spec, hint);
      if hint in heap {
        return false, TimerId(0, 0);
      }
      var info := Info(when, interval);
      FreshNumber(heap, timers, active, spec, hint, info);
      AddIsEntered(spec, hint, info, clock);
      hide Apply, Entered;
      AllocateMatches(heap, timers, active, spec, hint, info);
      numCreated := numCreated + 1;
      heap := heap[hint := Timer(when, interval, numCreated)];
      spec := Detached(spec, hint, info);
      ok, id := true, TimerId(hint, numCreated);
      AddTimerInLoop(hint, clock);
    }

    method CancelInLoop(id: TimerId)
      requires Valid()
      modifies this`heap, this`timers, this`active, this`canceling, this`spec
      ensures Valid()
      ensures spec == Apply(old(spec), Cancel(id))
      ensures spec.calling == old(spec.calling) && spec.inFlight == old(spec.inFlight)
    {
      hide Matches;
      SizesAgree(heap, timers, active, spec);
      assert |timers| == |active|;
      ghost var before := spec;
      if id in active {
        DropMatches(heap, timers, active, spec, id);
        var entry := Entry(heap[id.address].expiration, id.address);
        assert entry in timers;
        timers := EraseEntry(timers, entry);
        assert id.address in heap;
        heap := heap - {id.address};
        active := active - {id};
        spec := Apply(spec, Cancel(id));
      } else {
        RecordMatches(heap, timers, active, canceling, spec, id);
        if calling {
          canceling := canceling + {id};
        }
        spec := Apply(spec, Cancel(id));
      }
      SizesAgree(heap, timers, active, spec);
      assert |timers| == |active|;
    }

    /** What a callback does: any finite list of calls. */
    method RunCallback(ops: seq<Op>)
      requires Valid()
      modifies this
      ensures Valid()
      ensures spec == RunScript(old(spec), ops)
    {
      hide Matches, Apply;
      for i := 0 to |ops|
        invariant Valid()
        invariant spec == RunScript(old(spec), ops[..i])
      {
        assert ops[..i + 1][..i] == ops[..i];
        match ops[i] {
          case Add(hint, when, interval, clock) =>
            var ok, id := AddTimer(hint, when, interval, clock);
          case Cancel(id) =>
            CancelInLoop(id);
        }
      }
      assert ops[..|ops|] == ops;
    }

    /** The second loop of `getExpired`. */
    method EraseActive(expired: seq<Entry>)
      requires forall e :: e in expired ==> e.timer in heap && TimerId(e.timer, heap[e.timer].sequence) in active
      requires forall i, j :: 0 <= i < j < |expired| ==> expired[i].timer != expired[j].timer
      modifies this`active
      ensures active == old(active) - Ids(heap, expired)
    {
      for i := 0 to |expired|
        invariant active == old(active) - Ids(heap, expired[..i])
      {
        var timer := TimerId(expired[i].timer, heap[expired[i].timer].sequence);
        assert timer in active;
        active := active - {timer};
        assert expired[..i + 1] == expired[..i] + [expired[i]];
      }
      assert expired[..|expired|] == expired;
    }

    /** Takes the timers due by `now` out of both sets. */
    method GetExpired(now: Time) returns (expired: seq<Entry>, ghost batch: seq<nat>)
      requires Consistent() && spec.inFlight == map[]
      modifies this`timers, this`active, this`spec
      ensures Consistent()
      ensures spec == Split(old(spec), now)
      ensures IsBatch(old(spec), now, batch) && SameBatch(spec, expired, batch)
    {
      hide Matches, Split, IsBatch, SameBatch;
      SizesAgree(heap, timers, active, spec);
      assert |timers| == |active|;
      EntriesAreActive(heap, timers, active, spec);
      var end := LowerBound(timers, now, UINTPTR_MAX);
      assert end == |timers| || now < timers[end].when;
      expired := timers[..end];
      ghost var cells := heap;
      batch := seq(end, i requires 0 <= i < end => cells[expired[i].timer].sequence);
      BatchIsOrdered(heap, timers, active, spec, now, end, batch);
      SplitMatches(heap, timers, active, spec, now, end);
      SplitFrame(spec, now);
      timers := timers[end..];
      EraseActive(expired);
      spec := Split(spec, now);
      SizesAgree(heap, timers, active, spec);
      assert |timers| == |active|;
      assert Matches(heap, timers, active, spec);
      assert calling == spec.calling && numCreated == spec.created && arming == spec.arming;
    }

    /** The loop of `reset`: restarts and re-enters the repeating timers of a batch, unless
        cancelled, and deletes the others. */
    method Recycle(expired: seq<Entry>, ghost batch: seq<nat>, now: Time)
      requires Valid() && !calling && SameBatch(spec, expired, batch)
      requires forall q :: q in spec.inFlight <==> q in batch
      requires forall i, j :: 0 <= i < j < |batch| ==> batch[i] != batch[j]
      modifies this`heap, this`timers, this`active, this`spec
      ensures Consistent()
      ensures spec == ResetPart(old(spec), old(spec.inFlight).Keys, now)
    {
      hide Matches, ResetPart, Returns, Inv;
      ghost var before := spec;
      ghost var done: set<nat> := {};
      ResetNone(spec, now);
      LiveAddresses(heap, timers, active, spec, 0);
      for i := 0 to |expired|
        invariant Consistent()
        invariant done == set q | q in batch[..i]
        invariant spec == ResetPart(before, done, now) && spec.issued == before.issued
      {
        ghost var q := batch[i];
        assert q !in done && q in before.inFlight;
        ResetOne(before, done, q, now);
        InFlightCell(heap, timers, active, spec, q);
        CancelingDecides(canceling, before, q);
        var p := expired[i].timer;
        assert p in heap;
        if heap[p].interval > 0 && TimerId(p, heap[p].sequence) !in canceling {
          RestartMatches(heap, timers, active, spec, p, now + heap[p].interval);
          heap := heap[p := heap[p].(expiration := now + heap[p].interval)];
          spec := spec.(inFlight := spec.inFlight[q := Info(heap[p].expiration, heap[p].interval)]);
          var _ := Insert(p);
        } else {
          DeleteMatches(heap, timers, active, spec, p);
          heap := heap - {p};
          spec := spec.(inFlight := spec.inFlight - {q});
        }
        done := done + {q};
        assert batch[..i + 1] == batch[..i] + [q];
      }
      assert batch[..|expired|] == batch;
      assert done == before.inFlight.Keys;
    }

    /** Puts the repeating timers of a batch back and arms the kernel timer for the next one. */
    method Reset(expired: seq<Entry>, ghost batch: seq<nat>, now: Time, clock: Time)
      requires Valid() && !calling && SameBatch(spec, expired, batch)
      requires forall q :: q in spec.inFlight <==> q in batch
      requires forall i, j :: 0 <= i < j < |batch| ==> batch[i] != batch[j]
      modifies this`heap, this`timers, this`active, this`spec, this`arming
      ensures Valid()
      ensures spec == TimerSpec.Reset(old(spec), now, clock)
    {
      hide Matches, ResetPart, Returns, Inv;
      ghost var before := spec;
      Recycle(expired, batch, now);
      ResetAll(before, before.inFlight.Keys, now, clock);
      FirstIsEarliest(heap, timers, active, spec, 0);
      var nextExpire := 0;
      if timers != [] {
        nextExpire := heap[timers[0].timer].expiration;
      }
      if nextExpire > 0 {
        arming := Arm(nextExpire, clock);
      }
      ghost var part := spec;
      spec := TimerSpec.Reset(before, now, clock);
      assert spec.inFlight == map[];
      ArmingIsFree(heap, timers, active, part, spec);
      assert Matches(heap, timers, active, spec);
      assert calling == spec.calling && numCreated == spec.created && arming == spec.arming;
    }

    /** Runs the callbacks of a batch, one timer after the other. */
    method RunExpired(expired: seq<Entry>, ghost batch: seq<nat>, callback: Callback) returns (ran: seq<nat>)
      requires Valid() && SameBatch(spec, expired, batch) && |batch| == |expired|
      modifies this
      ensures Valid() && ran == batch
      ensures spec == RunBatch(old(spec), batch, callback)
      ensures spec.inFlight == old(spec.inFlight) && spec.calling == old(spec.calling)
      ensures SameBatch(spec, expired, batch)
    {
      hide Matches, Inv, RunScript, SameBatch;
      ran := [];
      for i := 0 to |expired|
        invariant Valid() && ran == batch[..i]
        invariant spec == RunBatch(old(spec), batch[..i], callback)
        invariant spec.inFlight == old(spec.inFlight) && spec.calling == old(spec.calling)
        invariant SameBatch(spec, expired, batch)
      {
        BatchCell(heap, timers, active, spec, expired, batch, i);
        var p := expired[i].timer;
        assert p in heap;
        var sequence := heap[p].sequence;
        CallbackKeepsBatch(spec, callback(i, sequence), expired, batch);
        RunCallback(callback(i, sequence));
        ran := ran + [sequence];
        assert batch[..i + 1][..i] == batch[..i];
      }
      assert batch[..|expired|] == batch;
    }

    /** The read event of the kernel timer.  `callback` says what each timer's callback does
        and `ran` reports whose callbacks ran, in order. */
    method HandleRead(now: Time, alarm: bool, callback: Callback, clock: Time) returns (ran: seq<nat>)
      requires Valid() && !spec.calling && spec.inFlight == map[]
      modifies this
      ensures Valid() && !spec.calling && spec.inFlight == map[]
      ensures IsBatch(old(spec), now, ran)
      ensures spec == Next(old(spec), Fire(now, alarm, ran, callback, clock))
    {
      hide Matches, Inv, Split, RunScript, IsBatch, SameBatch;
      ghost var before := spec;
      ExpireIsSplit(spec, now, alarm);
      if alarm {
        arming := Disarmed;
      }
      spec := spec.(arming := arming);
      ArmingIsFree(heap, timers, active, before, spec);
      var expired, batch := GetExpired(now);
      BatchOfExpire(before, now, alarm, expired, batch);
      calling := true;
      canceling := {};
      ghost var split := spec;
      spec := Expire(before, now, alarm);
      ArmingIsFree(heap, timers, active, split, spec);
      ran := RunExpired(expired, batch, callback);
      calling := false;
      ghost var done := spec;
      ResetIgnoresCalling(done, now, clock);
      spec := spec.(calling := false);
      ArmingIsFree(heap, timers, active, done, spec);
      CallingIsFree(done, canceling, expired, batch);
      Reset(expired, batch, now, clock);
    }

    /** The destructor deletes what `timers` lists: between batches that is every live timer. */
    method Destroy()
      requires Valid() && !spec.calling && spec.inFlight == map[]
      modifies this`heap
      ensures heap == map[]
    {
      hide Matches;
      EntriesAreActive(heap, timers, active, spec);
      EntriesListHeap(heap, timers, active, spec);
      ghost var deleted: set<Address> := {};
      for i := 0 to |timers|
        invariant deleted == set j | 0 <= j < i :: timers[j].timer
        invariant heap.Keys == old(heap).Keys - deleted
      {
        assert timers[i] in timers;
        assert timers[i].timer in heap;
        heap := heap - {timers[i].timer};
        deleted := deleted + {timers[i].timer};
      }
      assert forall p :: p in old(heap) ==> p in deleted;
    }
  }

  // ---- Every run ----

  /** What happens to the queue between two polls; which timers fire is up to the queue. */
  datatype Command =
    | Request(op: Op)
    | Alarm(now: Time, alarm: bool, callback: Callback, clock: Time)

  function Observed(command: Command, ran: seq<nat>): Event {
    match command
    case Request(op) => Call(op)
    case Alarm(now, alarm, callback, clock) => Fire(now, alarm, ran, callback, clock)
  }

  function Trace(commands: seq<Command>, ran: seq<seq<nat>>): (events: seq<Event>)
    requires |commands| == |ran|
    ensures |events| == |commands|
    ensures forall i :: 0 <= i < |events| ==> events[i] == Observed(commands[i], ran[i])
  {
    seq(|commands|, i requires 0 <= i < |commands| => Observed(commands[i], ran[i]))
  }

  lemma {:induction false} RunExtends(a: Queue, events: seq<Event>, e: Event)
    ensures Run(a, events + [e]) == Next(Run(a, events), e)
    ensures LegalRun(a, events + [e]) <==> LegalRun(a, events) && Legal(Run(a, events), e)
    decreases events
  {
    if events == [] {
      assert Run(Next(a, e), []) == Next(a, e);
      assert (events + [e])[1..] == [];
    } else {
      assert (events + [e])[1..] == events[1..] + [e];
      RunExtends(Next(a, events[0]), events[1..], e);
    }
  }

  lemma RunNothing(a: Queue)
    ensures LegalRun(a, []) && Run(a, []) == a
  {
  }

  /** Whatever is asked of a fresh queue, it behaves as a legal run of the specification,
      and the batches it runs are those of that run. */
  method Drive(commands: seq<Command>) returns (queue: TimerQueue, ran: seq<seq<nat>>)
    requires forall i :: 0 <= i < |commands| && commands[i].Alarm? ==> commands[i].now > 0
    ensures fresh(queue) && queue.Valid()
    ensures |ran| == |commands|
    ensures var start := Queue(map[], map[], false, {}, map[], 0, Disarmed);
            && LegalRun(start, Trace(commands, ran))
            && queue.spec == Run(start, Trace(commands, ran))
            && AlarmSet(queue.spec)
  {
    hide Inv, RunBatch, Expire, TimerSpec.Reset, IsBatch, Apply, AlarmSet, Matches, CancelingMatches, Run, LegalRun;
    queue := new TimerQueue();
    ran := [];
    ghost var start := queue.spec;
    RunNothing(start);
    assert Trace(commands[..0], ran) == [];
    for i := 0 to |commands|
      invariant fresh(queue) && queue.Valid() && |ran| == i
      invariant !queue.spec.calling && queue.spec.inFlight == map[]
      invariant LegalRun(start, Trace(commands[..i], ran)) && queue.spec == Run(start, Trace(commands[..i], ran))
    {
      ghost var before := Trace(commands[..i], ran);
      match commands[i] {
        case Request(Add(hint, when, interval, clock)) =>
          var _, _ := queue.AddTimer(hint, when, interval, clock);
          ran := ran + [[]];
        case Request(Cancel(id)) =>
          queue.CancelInLoop(id);
          ran := ran + [[]];
        case Alarm(now, alarm, callback, clock) =>
          var batch := queue.HandleRead(now, alarm, callback, clock);
          ran := ran + [batch];
      }
      assert Trace(commands[..i + 1], ran) == before + [Observed(commands[i], ran[i])];
      RunExtends(start, before, Observed(commands[i], ran[i]));
    }
    assert commands[..|commands|] == commands;
    InitialAlarm(start);
    RunAlarm(start, Trace(commands, ran));
  }

  lemma InitialAlarm(start: Queue)
    requires start.pending == map[]
    ensures AlarmSet(start)
  {
  }
}
