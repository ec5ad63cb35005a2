/**
 The cache as its clients see it: a list of items, most recently used first, that never
 grows beyond its capacity.  This file proves what the list is worth: it holds the values
 last set, its victim is the least recently used key, and a larger cache never misses
 where a smaller one hits.
 */
module LruSpec {
  import opened Wrappers

  type Key = string
  type Value = string

  datatype Item = Item(key: Key, value: Value)

  /** Most recently used first. */
  type Cache = seq<Item>

  datatype Op = Get(key: Key) | Set(key: Key, value: Value) | Del(key: Key)

  ghost predicate Distinct(c: Cache) {
    forall i, j :: 0 <= i < j < |c| ==> c[i].key != c[j].key
  }

  function Lookup(c: Cache, key: Key): Option<Value> {
    if c == [] then None
    else if c[0].key == key then Some(c[0].value)
    else Lookup(c[1..], key)
  }

  function Without(c: Cache, key: Key): Cache {
    if c == [] then []
    else if c[0].key == key then Without(c[1..], key)
    else [c[0]] + Without(c[1..], key)
  }

  function Evict(c: Cache, capacity: nat): Cache {
    if |c| >= capacity && c != [] then c[..|c| - 1] else c
  }

  function Apply(c: Cache, capacity: nat, op: Op): Cache {
    match op
    case Get(key) =>
      if Lookup(c, key).Some? then [Item(key, Lookup(c, key).value)] + Without(c, key) else c
    case Set(key, value) =>
      if Lookup(c, key).Some? then [Item(key, value)] + Without(c, key)
      else [Item(key, value)] + Evict(c, capacity)
    case Del(key) => Without(c, key)
  }

  function Run(capacity: nat, ops: seq<Op>): Cache {
    if ops == [] then [] else Apply(Run(capacity, ops[..|ops| - 1]), capacity, ops[|ops| - 1])
  }

  // ---- The list algebra ----

  lemma {:induction false} LookupIsMembership(c: Cache, key: Key)
    ensures Lookup(c, key).Some? <==> exists i :: 0 <= i < |c| && c[i].key == key
    ensures Lookup(c, key).Some? ==> Item(key, Lookup(c, key).value) in c
  {
    if c != [] {
      LookupIsMembership(c[1..], key);
      assert forall i :: 1 <= i < |c| ==> c[i] == c[1..][i - 1];
    }
  }

  lemma {:induction false} LookupAt(c: Cache, i: nat)
    requires Distinct(c) && i < |c|
    ensures Lookup(c, c[i].key) == Some(c[i].value)
  {
    if i > 0 {
      LookupAt(c[1..], i - 1);
    }
  }

  lemma {:induction false} WithoutMembers(c: Cache, key: Key)
    ensures forall item :: item in Without(c, key) <==> item in c && item.key != key
    ensures Distinct(c) ==> Distinct(Without(c, key))
  {
    if c != [] {
      WithoutMembers(c[1..], key);
      if Distinct(c) && c[0].key != key {
        var rest := Without(c[1..], key);
        forall i | 0 <= i < |rest| ensures rest[i].key != c[0].key {
          assert rest[i] in c[1..];
        }
      }
    }
  }

  lemma {:induction false} WithoutAbsent(c: Cache, key: Key)
    requires Lookup(c, key).None?
    ensures Without(c, key) == c
  {
    if c != [] {
      WithoutAbsent(c[1..], key);
    }
  }

  lemma {:induction false} WithoutLength(c: Cache, key: Key)
    requires Distinct(c)
    ensures |Without(c, key)| == if Lookup(c, key).Some? then |c| - 1 else |c|
  {
    if c != [] {
      if c[0].key == key {
        LookupIsMembership(c[1..], key);
        assert forall i :: 1 <= i < |c| ==> c[i] == c[1..][i - 1];
        WithoutAbsent(c[1..], key);
      } else {
        WithoutLength(c[1..], key);
      }
    }
  }

  lemma {:induction false} WithoutCommutes(c: Cache, a: Key, b: Key)
    ensures Without(Without(c, a), b) == Without(Without(c, b), a)
  {
    if c != [] {
      WithoutCommutes(c[1..], a, b);
    }
  }

  lemma {:induction false} LookupWithout(c: Cache, a: Key, b: Key)
    ensures Lookup(Without(c, a), b) == if a == b then None else Lookup(c, b)
  {
    if c != [] {
      LookupWithout(c[1..], a, b);
    }
  }

  lemma {:induction false} WithoutAppend(c: Cache, last: Item, key: Key)
    ensures Without(c + [last], key) == Without(c, key) + (if last.key == key then [] else [last])
  {
    if c == [] {
      assert [] + [last] == [last];
      assert [last][1..] == [];
    } else {
      assert (c + [last])[1..] == c[1..] + [last];
      WithoutAppend(c[1..], last, key);
    }
  }

  lemma {:induction false} LookupAppend(c: Cache, last: Item, key: Key)
    ensures Lookup(c + [last], key) ==
            if Lookup(c, key).Some? then Lookup(c, key) else if last.key == key then Some(last.value) else None
  {
    if c == [] {
      assert [] + [last] == [last];
      assert [last][1..] == [];
    } else {
      assert (c + [last])[1..] == c[1..] + [last];
      LookupAppend(c[1..], last, key);
    }
  }

  // ---- Size and distinctness, over every run ----

  lemma DistinctFront(item: Item, c: Cache)
    requires Distinct(c) && Lookup(c, item.key).None?
    ensures Distinct([item] + c)
  {
    LookupIsMembership(c, item.key);
  }

  lemma ApplyKeeps(c: Cache, capacity: nat, op: Op)
    requires Distinct(c) && |c| <= capacity && capacity >= 1
    ensures Distinct(Apply(c, capacity, op)) && |Apply(c, capacity, op)| <= capacity
  {
    WithoutMembers(c, op.key);
    WithoutLength(c, op.key);
    LookupWithout(c, op.key, op.key);
    match op {
      case Get(key) =>
        if Lookup(c, key).Some? {
          DistinctFront(Item(key, Lookup(c, key).value), Without(c, key));
        }
      case Set(key, value) =>
        if Lookup(c, key).Some? {
          DistinctFront(Item(key, value), Without(c, key));
        } else {
          LookupIsMembership(c, key);
          LookupIsMembership(Evict(c, capacity), key);
          DistinctFront(Item(key, value), Evict(c, capacity));
        }
      case Del(key) =>
    }
  }

  /** After any trace the keys are distinct and no more than the capacity. */
  lemma {:induction false} RunKeeps(capacity: nat, ops: seq<Op>)
    requires capacity >= 1
    ensures Distinct(Run(capacity, ops)) && |Run(capacity, ops)| <= capacity
  {
    if ops != [] {
      RunKeeps(capacity, ops[..|ops| - 1]);
      ApplyKeeps(Run(capacity, ops[..|ops| - 1]), capacity, ops[|ops| - 1]);
    }
  }

  // ---- What a lookup finds ----

  lemma LookupAfter(c: Cache, capacity: nat, op: Op, key: Key)
    requires Distinct(c)
    ensures op.key == key ==>
              Lookup(Apply(c, capacity, op), key) ==
              match op case Get(_) => Lookup(c, key) case Set(_, value) => Some(value) case Del(_) => None
    ensures op.key != key ==>
              Lookup(Apply(c, capacity, op), key) == Lookup(c, key) || Lookup(Apply(c, capacity, op), key) == None
  {
    LookupWithout(c, op.key, key);
    if |c| >= capacity && c != [] {
      assert c == c[..|c| - 1] + [c[|c| - 1]];
      LookupAppend(c[..|c| - 1], c[|c| - 1], key);
      if Lookup(c[..|c| - 1], key).Some? && c[|c| - 1].key == key {
        LookupIsMembership(c[..|c| - 1], key);
      }
    }
  }

  function LastSet(ops: seq<Op>, key: Key): Option<Value> {
    if ops == [] then None
    else
      var last := ops[|ops| - 1];
      if last.Set? && last.key == key then Some(last.value)
      else if last.Del? && last.key == key then None
      else LastSet(ops[..|ops| - 1], key)
  }

  /** A hit returns the value most recently set, and never one that was deleted since. */
  lemma {:induction false} HitReturnsLastSet(capacity: nat, ops: seq<Op>, key: Key)
    requires capacity >= 1
    ensures Lookup(Run(capacity, ops), key).Some? ==> Lookup(Run(capacity, ops), key) == LastSet(ops, key)
  {
    if ops != [] {
      var before := ops[..|ops| - 1];
      HitReturnsLastSet(capacity, before, key);
      RunKeeps(capacity, before);
      LookupAfter(Run(capacity, before), capacity, ops[|ops| - 1], key);
    }
  }

  // ---- What is kept ----

  /** The keys that operations name, other than `key`. */
  function Others(ops: seq<Op>, key: Key): set<Key> {
    set i | 0 <= i < |ops| && ops[i].key != key :: ops[i].key
  }

  /** The key is in the list, and only keys of `used` are in front of it. */
  ghost predicate Near(c: Cache, key: Key, used: set<Key>) {
    exists i :: 0 <= i < |c| && c[i].key == key && forall j :: 0 <= j < i ==> c[j].key in used
  }

  lemma {:induction false} FrontSize(c: Cache, i: nat, used: set<Key>)
    requires Distinct(c) && i <= |c| && forall j :: 0 <= j < i ==> c[j].key in used
    ensures i <= |used|
  {
    if i > 0 {
      FrontSize(c, i - 1, used - {c[i - 1].key});
    }
  }

  lemma {:induction false} WithoutConcat(a: Cache, b: Cache, key: Key)
    ensures Without(a + b, key) == Without(a, key) + Without(b, key)
  {
    if a == [] {
      assert a + b == b;
    } else {
      assert (a + b)[1..] == a[1..] + b;
      WithoutConcat(a[1..], b, key);
    }
  }

  /** Taking another key out leaves a key near. */
  lemma NearWithout(c: Cache, key: Key, used: set<Key>, other: Key)
    requires Near(c, key, used) && other != key
    ensures Near(Without(c, other), key, used)
  {
    var i :| 0 <= i < |c| && c[i].key == key && forall j :: 0 <= j < i ==> c[j].key in used;
    var front, rest := c[..i], c[i + 1..];
    assert c == front + ([c[i]] + rest);
    WithoutConcat(front, [c[i]] + rest, other);
    WithoutConcat([c[i]], rest, other);
    assert Without([c[i]], other) == [c[i]];
    WithoutMembers(front, other);
    var d, k := Without(c, other), |Without(front, other)|;
    assert d[k] == c[i];
    forall j | 0 <= j < k
      ensures d[j].key in used
    {
      assert d[j] == Without(front, other)[j] && d[j] in front;
    }
  }

  lemma NearBehind(c: Cache, key: Key, used: set<Key>, item: Item)
    requires Near(c, key, used)
    ensures Near([item] + c, key, used + {item.key})
  {
    var i :| 0 <= i < |c| && c[i].key == key && forall j :: 0 <= j < i ==> c[j].key in used;
    var d := [item] + c;
    assert d[i + 1] == c[i];
    assert forall j :: 0 < j <= i ==> d[j] == c[j - 1];
  }

  lemma NearFront(item: Item, c: Cache)
    ensures Near([item] + c, item.key, {})
  {
    assert ([item] + c)[0] == item;
  }

  /** A key with fewer used keys than places in front of it is not the one evicted. */
  lemma NearEvict(c: Cache, capacity: nat, key: Key, used: set<Key>)
    requires Distinct(c) && Near(c, key, used) && |used| + 1 < capacity
    ensures Near(Evict(c, capacity), key, used)
  {
    var i :| 0 <= i < |c| && c[i].key == key && forall j :: 0 <= j < i ==> c[j].key in used;
    FrontSize(c, i, used);
    assert Evict(c, capacity)[i] == c[i];
  }

  lemma NearIsFound(c: Cache, key: Key, used: set<Key>)
    requires Near(c, key, used)
    ensures Lookup(c, key).Some?
  {
    LookupIsMembership(c, key);
  }

  lemma NearStep(c: Cache, capacity: nat, op: Op, key: Key, used: set<Key>)
    requires Distinct(c) && Near(c, key, used) && !(op.Del? && op.key == key)
    requires |used + if op.key == key then {} else {op.key}| < capacity
    ensures Near(Apply(c, capacity, op), key, used + if op.key == key then {} else {op.key})
  {
    hide Near, Without, Distinct;
    NearIsFound(c, key, used);
    if op.key == key {
      NearFront(if op.Set? then Item(key, op.value) else Item(key, Lookup(c, key).value), Without(c, key));
      NearMore(Apply(c, capacity, op), key, {}, used);
      assert used + {} == used;
    } else {
      NearWithout(c, key, used, op.key);
      NearMore(Without(c, op.key), key, used, used + {op.key});
      if Lookup(c, op.key).Some? && !op.Del? {
        NearBehind(Without(c, op.key), key, used, Item(op.key, if op.Set? then op.value else Lookup(c, op.key).value));
      } else if op.Set? {
        NearInsert(c, capacity, Item(op.key, op.value), key, used);
      } else {
        NearMore(c, key, used, used + {op.key});
      }
    }
  }

  lemma NearMore(c: Cache, key: Key, used: set<Key>, more: set<Key>)
    requires Near(c, key, used) && used <= more
    ensures Near(c, key, more)
  {
    var i :| 0 <= i < |c| && c[i].key == key && forall j :: 0 <= j < i ==> c[j].key in used;
  }

  lemma NearInsert(c: Cache, capacity: nat, item: Item, key: Key, used: set<Key>)
    requires Distinct(c) && Near(c, key, used) && Lookup(c, item.key).None? && |used + {item.key}| < capacity
    ensures Near([item] + Evict(c, capacity), key, used + {item.key})
  {
    var rest := used - {item.key};
    LookupIsMembership(c, item.key);
    var i :| 0 <= i < |c| && c[i].key == key && forall j :: 0 <= j < i ==> c[j].key in used;
    assert Near(c, key, rest);
    assert used + {item.key} == rest + {item.key} && |rest + {item.key}| == |rest| + 1;
    NearEvict(c, capacity, key, rest);
    NearBehind(Evict(c, capacity), key, rest, item);
  }

  lemma SetIsFront(c: Cache, capacity: nat, key: Key, value: Value)
    ensures Near(Apply(c, capacity, Set(key, value)), key, {})
  {
    hide Near;
    NearFront(Item(key, value), Without(c, key));
    NearFront(Item(key, value), Evict(c, capacity));
  }

  lemma {:induction false} SetIsNear(capacity: nat, ops: seq<Op>, key: Key, value: Value, more: seq<Op>)
    requires capacity >= 1 && |Others(more, key)| < capacity
    requires forall i :: 0 <= i < |more| && more[i].key == key ==> !more[i].Del?
    ensures Near(Run(capacity, ops + [Set(key, value)] + more), key, Others(more, key))
  {
    hide Near, Others, Apply;
    var all := ops + [Set(key, value)] + more;
    if more == [] {
      assert all[..|all| - 1] == ops;
      SetIsFront(Run(capacity, ops), capacity, key, value);
      NearMore(Run(capacity, all), key, {}, Others(more, key));
    } else {
      var front, last := more[..|more| - 1], more[|more| - 1];
      assert all[..|all| - 1] == ops + [Set(key, value)] + front;
      OthersMore(front, last, key);
      assert more == front + [last];
      assert |Others(front, key)| <= |Others(more, key)| by { SubsetSize(Others(front, key), Others(more, key)); }
      SetIsNear(capacity, ops, key, value, front);
      RunKeeps(capacity, ops + [Set(key, value)] + front);
      NearStep(Run(capacity, ops + [Set(key, value)] + front), capacity, last, key, Others(front, key));
    }
  }

  lemma {:induction false} SubsetSize(a: set<Key>, b: set<Key>)
    requires a <= b
    ensures |a| <= |b|
  {
    assert b == a + (b - a);
  }

  lemma OthersMore(ops: seq<Op>, op: Op, key: Key)
    ensures Others(ops + [op], key) == Others(ops, key) + if op.key == key then {} else {op.key}
  {
    var all := ops + [op];
    assert all[|ops|] == op;
    forall k
      ensures k in Others(ops, key) ==> k in Others(all, key)
    {
      if k in Others(ops, key) {
        var i :| 0 <= i < |ops| && ops[i].key != key && ops[i].key == k;
        assert all[i] == ops[i];
      }
    }
  }

  /** A key that was set and not deleted since is a hit for as long as fewer other keys have
      been named than there are places. */
  lemma RecentlySetHits(capacity: nat, ops: seq<Op>, key: Key, value: Value, more: seq<Op>)
    requires capacity >= 1 && |Others(more, key)| < capacity
    requires forall i :: 0 <= i < |more| && more[i].key == key ==> !more[i].Del?
    ensures Lookup(Run(capacity, ops + [Set(key, value)] + more), key).Some?
  {
    SetIsNear(capacity, ops, key, value, more);
    NearIsFound(Run(capacity, ops + [Set(key, value)] + more), key, Others(more, key));
  }

  // ---- The victim is the least recently used key ----

  /** The position, counted from 1, of the last operation that used the key; 0 if none did. */
  function LastUse(capacity: nat, ops: seq<Op>, key: Key): nat {
    if ops == [] then 0
    else
      var before, last := ops[..|ops| - 1], ops[|ops| - 1];
      if last.key == key && (last.Set? || (last.Get? && Lookup(Run(capacity, before), key).Some?)) then |ops|
      else LastUse(capacity, before, key)
  }

  lemma {:induction false} LastUseBound(capacity: nat, ops: seq<Op>, key: Key)
    ensures LastUse(capacity, ops, key) <= |ops|
  {
    if ops != [] {
      LastUseBound(capacity, ops[..|ops| - 1], key);
    }
  }

  /** Positions in the list follow the last use, the most recent first. */
  ghost predicate OrderedByUse(c: Cache, capacity: nat, ops: seq<Op>) {
    forall i, j :: 0 <= i < j < |c| ==> LastUse(capacity, ops, c[i].key) > LastUse(capacity, ops, c[j].key)
  }

  lemma {:induction false} WithoutOrdered(c: Cache, key: Key, capacity: nat, ops: seq<Op>)
    requires OrderedByUse(c, capacity, ops)
    ensures OrderedByUse(Without(c, key), capacity, ops)
  {
    if c != [] {
      WithoutOrdered(c[1..], key, capacity, ops);
      WithoutMembers(c[1..], key);
      var rest := Without(c[1..], key);
      forall i | 0 <= i < |rest| ensures LastUse(capacity, ops, c[0].key) > LastUse(capacity, ops, rest[i].key) {
        assert rest[i] in c[1..];
      }
    }
  }

  /** Items that the last operation does not name keep their order. */
  lemma OthersKeepOrder(c: Cache, capacity: nat, ops: seq<Op>)
    requires ops != [] && OrderedByUse(c, capacity, ops[..|ops| - 1])
    requires forall i :: 0 <= i < |c| ==> c[i].key != ops[|ops| - 1].key
    ensures OrderedByUse(c, capacity, ops)
    ensures forall i :: 0 <= i < |c| ==> LastUse(capacity, ops, c[i].key) < |ops|
  {
    forall i | 0 <= i < |c|
      ensures LastUse(capacity, ops, c[i].key) == LastUse(capacity, ops[..|ops| - 1], c[i].key) < |ops|
    {
      LastUseBound(capacity, ops[..|ops| - 1], c[i].key);
    }
  }

  lemma FrontOrdered(front: Item, rest: Cache, capacity: nat, ops: seq<Op>)
    requires OrderedByUse(rest, capacity, ops)
    requires forall i :: 0 <= i < |rest| ==> LastUse(capacity, ops, rest[i].key) < LastUse(capacity, ops, front.key)
    ensures OrderedByUse([front] + rest, capacity, ops)
  {
  }

  lemma EvictOrdered(c: Cache, capacity: nat, ops: seq<Op>)
    requires OrderedByUse(c, capacity, ops)
    ensures OrderedByUse(Evict(c, capacity), capacity, ops)
    ensures forall item :: item in Evict(c, capacity) ==> item in c
  {
  }

  /** The used item is in front of the items the last operation does not name. */
  lemma UsedItemInFront(front: Item, rest: Cache, capacity: nat, ops: seq<Op>)
    requires ops != [] && OrderedByUse(rest, capacity, ops[..|ops| - 1])
    requires forall item :: item in rest ==> item.key != ops[|ops| - 1].key
    requires LastUse(capacity, ops, front.key) == |ops|
    ensures OrderedByUse([front] + rest, capacity, ops)
  {
    OthersKeepOrder(rest, capacity, ops);
    FrontOrdered(front, rest, capacity, ops);
  }

  /** At every moment the list is ordered by last use, so that what an insertion into a full
      cache drops is the key whose last use is the oldest. */
  lemma {:induction false} ListOrderedByUse(capacity: nat, ops: seq<Op>)
    requires capacity >= 1
    ensures OrderedByUse(Run(capacity, ops), capacity, ops)
  {
    if ops != [] {
      var before, op := ops[..|ops| - 1], ops[|ops| - 1];
      var c := Run(capacity, before);
      ListOrderedByUse(capacity, before);
      WithoutOrdered(c, op.key, capacity, before);
      WithoutMembers(c, op.key);
      assert Run(capacity, ops) == Apply(c, capacity, op);
      if Lookup(c, op.key).Some? && !op.Del? {
        var front := Apply(c, capacity, op)[0];
        assert Apply(c, capacity, op) == [front] + Without(c, op.key);
        UsedItemInFront(front, Without(c, op.key), capacity, ops);
      } else if op.Set? {
        var item := Item(op.key, op.value);
        EvictOrdered(c, capacity, before);
        LookupIsMembership(c, op.key);
        assert Apply(c, capacity, op) == [item] + Evict(c, capacity);
        UsedItemInFront(item, Evict(c, capacity), capacity, ops);
      } else {
        if Lookup(c, op.key).None? {
          WithoutAbsent(c, op.key);
        }
        assert Apply(c, capacity, op) == Without(c, op.key);
        OthersKeepOrder(Without(c, op.key), capacity, ops);
      }
    }
  }

  // ---- Inclusion ----

  /** `small` is `large`, or `large` with one key missing. */
  ghost predicate AtMostOneExtra(small: Cache, large: Cache) {
    small == large || exists x :: Lookup(large, x).Some? && small == Without(large, x)
  }

  lemma LastIsNew(front: Cache, last: Item)
    requires Distinct(front + [last])
    ensures Distinct(front) && Lookup(front, last.key).None?
  {
    var c := front + [last];
    assert forall i :: 0 <= i < |front| ==> front[i] == c[i] && c[i].key != c[|front|].key;
    LookupIsMembership(front, last.key);
  }

  lemma ExtraAtEnd(c: Cache)
    requires Distinct(c) && c != []
    ensures AtMostOneExtra(c[..|c| - 1], c)
  {
    var front, last := c[..|c| - 1], c[|c| - 1];
    assert c == front + [last];
    LastIsNew(front, last);
    WithoutAppend(front, last, last.key);
    WithoutAbsent(front, last.key);
    LookupAt(c, |c| - 1);
    assert Lookup(c, last.key).Some? && front == Without(c, last.key);
  }

  /** Moving to the front, or deleting, a key other than the extra one. */
  lemma InclusionSameKey(large: Cache, x: Key, op: Op, capacity: nat, more: nat)
    requires Lookup(large, op.key).Some? && op.key != x
    ensures Apply(Without(large, x), capacity, op) == Without(Apply(large, more, op), x)
  {
    LookupWithout(large, x, op.key);
    WithoutCommutes(large, x, op.key);
  }

  /** The extra key itself is used, or deleted. */
  lemma InclusionExtraKey(large: Cache, x: Key, op: Op, capacity: nat)
    requires Distinct(large) && |large| <= capacity + 1 && capacity >= 1
    requires Lookup(large, x).Some? && op.key == x
    ensures AtMostOneExtra(Apply(Without(large, x), capacity, op), Apply(large, capacity + 1, op))
  {
    var small := Without(large, x);
    LookupWithout(large, x, x);
    WithoutLength(large, x);
    WithoutMembers(large, x);
    WithoutAbsent(small, x);
    match op {
      case Get(_) =>
        var large' := Apply(large, capacity + 1, op);
        assert large'[1..] == small;
        assert Without(large', x) == small;
      case Set(_, value) =>
        var large' := Apply(large, capacity + 1, op);
        assert large' == [Item(x, value)] + small;
        DistinctFront(Item(x, value), small);
        if |small| >= capacity {
          ExtraAtEnd(large');
          assert large'[..|large'| - 1] == Apply(small, capacity, op);
        }
      case Del(_) =>
    }
  }

  lemma WithoutLast(front: Cache, last: Item)
    requires Distinct(front + [last])
    ensures Without(front + [last], last.key) == front
  {
    LastIsNew(front, last);
    WithoutAppend(front, last, last.key);
    WithoutAbsent(front, last.key);
  }

  /** Both caches evict and the larger one drops its extra item: the smaller one's victim is
      the new extra item. */
  lemma InclusionEvictsExtra(front: Cache, item: Item)
    requires Distinct(front) && front != [] && Lookup(front, item.key).None?
    ensures AtMostOneExtra([item] + front[..|front| - 1], [item] + front)
  {
    DistinctFront(item, front);
    ExtraAtEnd([item] + front);
    assert ([item] + front)[..|front|] == [item] + front[..|front| - 1];
  }

  /** Both caches evict the same item. */
  lemma InclusionEvictsSame(front: Cache, last: Item, x: Key, item: Item)
    requires Lookup(front + [last], x).Some? && last.key != x && item.key != x
    ensures Without(front + [last], x) == Without(front, x) + [last]
    ensures AtMostOneExtra([item] + Without(front, x), [item] + front)
  {
    WithoutAppend(front, last, x);
    LookupAppend(front, last, x);
    assert ([item] + front)[1..] == front;
    assert Lookup([item] + front, x).Some?;
    assert Without([item] + front, x) == [item] + Without(front, x);
  }

  /** Neither cache evicts. */
  lemma InclusionInserts(large: Cache, x: Key, item: Item)
    requires Lookup(large, x).Some? && item.key != x
    ensures AtMostOneExtra([item] + Without(large, x), [item] + large)
  {
    assert ([item] + large)[1..] == large;
    assert Without([item] + large, x) == [item] + Without(large, x);
  }

  /** A key in neither cache is inserted, and either cache may have to evict. */
  lemma InclusionNewKey(large: Cache, x: Key, op: Op, capacity: nat)
    requires Distinct(large) && |large| <= capacity + 1 && capacity >= 1
    requires Lookup(large, x).Some? && Lookup(large, op.key).None? && op.Set?
    ensures AtMostOneExtra(Apply(Without(large, x), capacity, op), Apply(large, capacity + 1, op))
  {
    hide Lookup, Without, Distinct, AtMostOneExtra;
    var small := Without(large, x);
    var item := Item(op.key, op.value);
    LookupWithout(large, x, op.key);
    WithoutLength(large, x);
    if |small| < capacity {
      InclusionInserts(large, x, item);
    } else {
      var front, last := large[..|large| - 1], large[|large| - 1];
      assert large == front + [last];
      LookupAppend(front, last, op.key);
      if last.key == x {
        LastIsNew(front, last);
        WithoutLast(front, last);
        InclusionEvictsExtra(front, item);
      } else {
        InclusionEvictsSame(front, last, x, item);
        assert small[..|small| - 1] == Without(front, x);
      }
    }
  }

  lemma InclusionStep(small: Cache, large: Cache, op: Op, capacity: nat)
    requires Distinct(large) && |small| <= capacity && |large| <= capacity + 1 && capacity >= 1
    requires AtMostOneExtra(small, large)
    ensures AtMostOneExtra(Apply(small, capacity, op), Apply(large, capacity + 1, op))
  {
    if small == large {
      if op.Set? && Lookup(large, op.key).None? && |small| >= capacity {
        var item := Item(op.key, op.value);
        DistinctFront(item, large);
        ExtraAtEnd([item] + large);
        assert ([item] + large)[..|large|] == [item] + large[..|large| - 1];
      }
    } else {
      var x :| Lookup(large, x).Some? && small == Without(large, x);
      if op.key == x {
        InclusionExtraKey(large, x, op, capacity);
      } else if Lookup(large, op.key).Some? {
        InclusionSameKey(large, x, op, capacity, capacity + 1);
        LookupAfter(large, capacity + 1, op, x);
        LookupWithout(large, op.key, x);
        assert Lookup(Apply(large, capacity + 1, op), x).Some?;
      } else if op.Set? {
        InclusionNewKey(large, x, op, capacity);
      } else {
        LookupWithout(large, x, op.key);
        WithoutAbsent(large, op.key);
        WithoutAbsent(small, op.key);
      }
    }
  }

  /** Run on the same trace, a cache with room for one more item holds everything the smaller
      one holds, in the same order and with the same values, and at most one item more. */
  lemma {:induction false} InclusionByOne(capacity: nat, ops: seq<Op>)
    requires capacity >= 1
    ensures AtMostOneExtra(Run(capacity, ops), Run(capacity + 1, ops))
  {
    if ops != [] {
      var before := ops[..|ops| - 1];
      InclusionByOne(capacity, before);
      RunKeeps(capacity, before);
      RunKeeps(capacity + 1, before);
      InclusionStep(Run(capacity, before), Run(capacity + 1, before), ops[|ops| - 1], capacity);
    }
  }

  ghost predicate Subsequence(a: Cache, b: Cache) {
    || a == []
    || (b != [] && a[0] == b[0] && Subsequence(a[1..], b[1..]))
    || (b != [] && Subsequence(a, b[1..]))
  }

  lemma {:induction false} SubsequenceReflexive(a: Cache)
    ensures Subsequence(a, a)
  {
    if a != [] {
      SubsequenceReflexive(a[1..]);
    }
  }

  lemma {:induction false} WithoutIsSubsequence(c: Cache, key: Key)
    ensures Subsequence(Without(c, key), c)
  {
    if c != [] {
      WithoutIsSubsequence(c[1..], key);
      if c[0].key != key {
        assert Without(c, key)[1..] == Without(c[1..], key);
      }
    }
  }

  lemma {:induction false} SubsequenceTransitive(a: Cache, b: Cache, c: Cache)
    requires Subsequence(a, b) && Subsequence(b, c)
    ensures Subsequence(a, c)
    decreases |b| + |c|
  {
    if a != [] {
      if b[0] == c[0] && Subsequence(b[1..], c[1..]) {
        if a[0] == b[0] && Subsequence(a[1..], b[1..]) {
          SubsequenceTransitive(a[1..], b[1..], c[1..]);
        } else {
          SubsequenceTransitive(a, b[1..], c[1..]);
        }
      } else {
        SubsequenceTransitive(a, b, c[1..]);
      }
    }
  }

  lemma {:induction false} SubsequenceMembers(a: Cache, b: Cache)
    requires Subsequence(a, b)
    ensures forall item :: item in a ==> item in b
    decreases |b|
  {
    if a != [] {
      assert forall item :: item in b[1..] ==> item in b;
      assert forall item :: item in a ==> item == a[0] || item in a[1..];
      if a[0] == b[0] && Subsequence(a[1..], b[1..]) {
        SubsequenceMembers(a[1..], b[1..]);
      } else {
        SubsequenceMembers(a, b[1..]);
      }
    }
  }

  /** Inclusion for any larger capacity. */
  lemma {:induction false} Inclusion(capacity: nat, more: nat, ops: seq<Op>)
    requires 1 <= capacity <= more
    ensures Subsequence(Run(capacity, ops), Run(more, ops))
    decreases more - capacity
  {
    if capacity == more {
      SubsequenceReflexive(Run(capacity, ops));
    } else {
      InclusionByOne(capacity, ops);
      Inclusion(capacity + 1, more, ops);
      var small, large := Run(capacity, ops), Run(capacity + 1, ops);
      if small != large {
        var x :| Lookup(large, x).Some? && small == Without(large, x);
        WithoutIsSubsequence(large, x);
        SubsequenceTransitive(small, large, Run(more, ops));
      }
    }
  }

  /** A larger cache never misses where a smaller one hits, and returns the same value. */
  lemma LargerNeverMisses(capacity: nat, more: nat, ops: seq<Op>, key: Key)
    requires 1 <= capacity <= more
    ensures Lookup(Run(capacity, ops), key).Some? ==> Lookup(Run(more, ops), key) == Lookup(Run(capacity, ops), key)
  {
    if Lookup(Run(capacity, ops), key).Some? {
      Inclusion(capacity, more, ops);
      RunKeeps(more, ops);
      LookupIsMembership(Run(capacity, ops), key);
      SubsequenceMembers(Run(capacity, ops), Run(more, ops));
      var item := Item(key, Lookup(Run(capacity, ops), key).value);
      var i :| 0 <= i < |Run(more, ops)| && Run(more, ops)[i] == item;
      LookupAt(Run(more, ops), i);
    }
  }
}
