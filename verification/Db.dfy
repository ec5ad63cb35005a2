/**
 The indexed store of one shard.  A list of nodes gives the recency order, a hash map holds
 for each key its value and two iterators, and a multimap lists the keys by slot so that
 the data of a slot can be found when the slot is moved.

 Iterators are the identities of the nodes they point at: they stay valid while the node
 lives, and reading or erasing through one requires the node to be there.
 */
module Dbs {
  import opened LruSpec
  import opened Wrappers

  type NodeId = nat

  datatype Node = Node(id: NodeId, key: Key)

  /** What the map stores: the iterators into the list and the multimap, and the value. */
  datatype MapValue = MapValue(listItor: NodeId, multimapItor: NodeId, value: Value)

  datatype SlotEntry = SlotEntry(slot: int, key: Key)

  /** The iterator is valid: its node is in the list. */
  predicate HasNode(list: seq<Node>, id: NodeId) {
    exists i :: 0 <= i < |list| && list[i].id == id
  }

  /** `list::erase` through an iterator. */
  function EraseNode(list: seq<Node>, id: NodeId): (r: seq<Node>)
    requires HasNode(list, id)
  {
    if list[0].id == id then list[1..]
    else
      assert forall i :: 1 <= i < |list| ==> list[i] == list[1..][i - 1];
      [list[0]] + EraseNode(list[1..], id)
  }

  ghost predicate UniqueIds(list: seq<Node>, bound: NodeId) {
    && (forall i :: 0 <= i < |list| ==> list[i].id < bound)
    && (forall i, j :: 0 <= i < j < |list| ==> list[i].id != list[j].id)
  }

  ghost predicate Aligned(list: seq<Node>, c: Cache) {
    |list| == |c| && forall i :: 0 <= i < |list| ==> list[i].key == c[i].key
  }

  /** The list and the map hold the cache, and every iterator stored in the map points at the
      node of its own key. */
  ghost predicate Represents(list: seq<Node>, bound: NodeId, m: map<Key, MapValue>, c: Cache) {
    && Distinct(c)
    && UniqueIds(list, bound)
    && Aligned(list, c)
    && (forall i :: 0 <= i < |list| ==> list[i].key in m && m[list[i].key].listItor == list[i].id)
    && (forall key :: key in m ==> Lookup(c, key) == Some(m[key].value))
  }

  /** The multimap lists the keys of the map, each once, under the slot it was inserted with,
      and the iterators stored in the map point at their own entry. */
  ghost predicate Indexed(m: map<Key, MapValue>, bound: NodeId, slotToKey: map<NodeId, SlotEntry>, slotOf: map<Key, int>) {
    && slotOf.Keys == m.Keys
    && (forall key :: key in m ==>
          m[key].multimapItor in slotToKey && slotToKey[m[key].multimapItor] == SlotEntry(slotOf[key], key))
    && (forall n :: n in slotToKey ==>
          n < bound && slotToKey[n].key in m && m[slotToKey[n].key].multimapItor == n)
  }

  lemma KeysAgree(list: seq<Node>, bound: NodeId, m: map<Key, MapValue>, c: Cache, key: Key)
    requires Represents(list, bound, m, c)
    ensures key in m <==> Lookup(c, key).Some?
    ensures key in m ==> exists i :: 0 <= i < |list| && list[i].id == m[key].listItor && list[i].key == key
  {
    LookupIsMembership(c, key);
    if Lookup(c, key).Some? {
      var i :| 0 <= i < |c| && c[i].key == key;
      assert list[i].key in m;
    }
  }

  lemma TailIsUnique(list: seq<Node>, bound: NodeId, k: nat)
    requires 0 < k < |list| && UniqueIds(list, bound)
    ensures UniqueIds(list[1..], bound) && list[0].id != list[k].id
  {
  }

  lemma HasNodeAt(list: seq<Node>, k: nat)
    requires k < |list|
    ensures HasNode(list, list[k].id)
  {
  }

  /** A list without its k-th element, from its tail without it. */
  lemma CutTail<T>(s: seq<T>, k: nat)
    requires 0 < k < |s|
    ensures s[1..][k - 1] == s[k] && s[..k] + s[k + 1..] == [s[0]] + (s[1..][..k - 1] + s[1..][k..])
  {
    assert s[..k] == [s[0]] + s[1..][..k - 1];
    assert s[k + 1..] == s[1..][k..];
  }

  lemma EraseHead(list: seq<Node>, id: NodeId)
    requires HasNode(list, id)
    ensures list != []
    ensures list[0].id == id ==> EraseNode(list, id) == list[1..]
    ensures list[0].id != id ==> HasNode(list[1..], id) && EraseNode(list, id) == [list[0]] + EraseNode(list[1..], id)
  {
    var i :| 0 <= i < |list| && list[i].id == id;
    if i > 0 {
      HasNodeAt(list[1..], i - 1);
    }
  }

  /** Erasing through an iterator takes out the node it points at, and nothing else. */
  lemma {:induction false} EraseAt(list: seq<Node>, bound: NodeId, k: nat)
    requires k < |list| && UniqueIds(list, bound)
    ensures HasNode(list, list[k].id) && EraseNode(list, list[k].id) == list[..k] + list[k + 1..]
  {
    hide UniqueIds, HasNode, EraseNode;
    HasNodeAt(list, k);
    EraseHead(list, list[k].id);
    if k > 0 {
      CutTail(list, k);
      TailIsUnique(list, bound, k);
      EraseAt(list[1..], bound, k - 1);
    }
  }

  lemma {:induction false} WithoutAt(c: Cache, k: nat)
    requires k < |c| && Distinct(c)
    ensures Without(c, c[k].key) == c[..k] + c[k + 1..]
  {
    hide Lookup;
    if k == 0 {
      LookupIsMembership(c[1..], c[0].key);
      assert forall i :: 1 <= i < |c| ==> c[i] == c[1..][i - 1];
      WithoutAbsent(c[1..], c[0].key);
    } else {
      CutTail(c, k);
      WithoutAt(c[1..], k - 1);
    }
  }

  /** Where the i-th node was before the k-th one was cut out. */
  function Before(i: nat, k: nat): nat {
    if i < k then i else i + 1
  }

  lemma CutNodes(list: seq<Node>, bound: NodeId, c: Cache, k: nat)
    requires UniqueIds(list, bound) && Aligned(list, c) && k < |list|
    ensures UniqueIds(list[..k] + list[k + 1..], bound) && Aligned(list[..k] + list[k + 1..], c[..k] + c[k + 1..])
  {
    var list' := list[..k] + list[k + 1..];
    assert forall i :: 0 <= i < |list'| ==> list'[i] == list[Before(i, k)];
    forall i, j | 0 <= i < j < |list'| ensures list'[i].id != list'[j].id {
      assert Before(i, k) < Before(j, k);
    }
  }

  lemma CutRepresents(list: seq<Node>, bound: NodeId, m: map<Key, MapValue>, c: Cache, k: nat)
    requires Represents(list, bound, m, c) && k < |list|
    ensures UniqueIds(list[..k] + list[k + 1..], bound) && Aligned(list[..k] + list[k + 1..], c[..k] + c[k + 1..])
    ensures forall n :: n in list[..k] + list[k + 1..] ==>
              n.key in m && n.key != list[k].key && m[n.key].listItor == n.id
  {
    hide UniqueIds, Lookup;
    CutNodes(list, bound, c, k);
    var list' := list[..k] + list[k + 1..];
    forall n | n in list' ensures n.key in m && n.key != list[k].key && m[n.key].listItor == n.id {
      var i :| 0 <= i < |list'| && list'[i] == n;
      assert list'[i] == list[Before(i, k)];
      assert c[Before(i, k)].key != c[k].key;
    }
  }

  /** What is left after a key was taken out of a represented cache, put together again. */
  lemma LeftRepresents(list: seq<Node>, bound: NodeId, m: map<Key, MapValue>, c: Cache, key: Key)
    requires Distinct(c) && UniqueIds(list, bound) && Aligned(list, c)
    requires forall n :: n in list ==> n.key in m && n.key != key && m[n.key].listItor == n.id
    requires forall other :: other in m && other != key ==> Lookup(c, other) == Some(m[other].value)
    ensures Represents(list, bound, m - {key}, c)
  {
    hide Distinct, UniqueIds, Aligned, Lookup;
    forall i | 0 <= i < |list|
      ensures list[i].key in m - {key} && (m - {key})[list[i].key].listItor == list[i].id
    {
      assert list[i] in list;
    }
  }

  lemma NodeOfKey(list: seq<Node>, bound: NodeId, m: map<Key, MapValue>, c: Cache, key: Key) returns (k: nat)
    requires Represents(list, bound, m, c) && key in m
    ensures k < |list| == |c| && list[k].id == m[key].listItor && list[k].key == c[k].key == key
    ensures HasNode(list, m[key].listItor) && UniqueIds(list, bound) && Distinct(c)
  {
    KeysAgree(list, bound, m, c, key);
    k :| 0 <= k < |list| && list[k].id == m[key].listItor && list[k].key == key;
  }

  lemma OthersKeepValues(list: seq<Node>, bound: NodeId, m: map<Key, MapValue>, c: Cache, key: Key)
    requires Represents(list, bound, m, c)
    ensures forall other :: other in m && other != key ==> Lookup(Without(c, key), other) == Some(m[other].value)
  {
    forall other | other in m && other != key ensures Lookup(Without(c, key), other) == Some(m[other].value) {
      LookupWithout(c, key, other);
    }
  }

  lemma EraseRepresents(list: seq<Node>, bound: NodeId, m: map<Key, MapValue>, c: Cache, key: Key)
    requires Represents(list, bound, m, c) && key in m
    ensures HasNode(list, m[key].listItor)
    ensures Represents(EraseNode(list, m[key].listItor), bound, m - {key}, Without(c, key))
  {
    hide Represents, HasNode, EraseNode, Without, Lookup, UniqueIds, Aligned, Distinct;
    var k := NodeOfKey(list, bound, m, c, key);
    EraseAt(list, bound, k);
    WithoutAt(c, k);
    WithoutMembers(c, key);
    CutRepresents(list, bound, m, c, k);
    OthersKeepValues(list, bound, m, c, key);
    LeftRepresents(list[..k] + list[k + 1..], bound, m, c[..k] + c[k + 1..], key);
  }

  lemma PushRepresents(list: seq<Node>, bound: NodeId, m: map<Key, MapValue>, c: Cache, key: Key, entry: MapValue)
    requires Represents(list, bound, m, c) && key !in m && entry.listItor == bound
    ensures Represents([Node(bound, key)] + list, bound + 1, m[key := entry], [Item(key, entry.value)] + c)
  {
    KeysAgree(list, bound, m, c, key);
    DistinctFront(Item(key, entry.value), c);
    var c' := [Item(key, entry.value)] + c;
    assert c'[1..] == c;
    var list' := [Node(bound, key)] + list;
    forall i | 0 <= i < |list'|
      ensures list'[i].key in m[key := entry] && m[key := entry][list'[i].key].listItor == list'[i].id
    {
      if i > 0 {
        assert list'[i] == list[i - 1] && c[i - 1].key == list[i - 1].key;
        LookupAt(c, i - 1);
      }
    }
  }

  /** A present key is moved to a new node at the front and may get another value. */
  lemma TouchRepresents(list: seq<Node>, bound: NodeId, m: map<Key, MapValue>, c: Cache, key: Key, value: Value)
    requires Represents(list, bound, m, c) && key in m
    ensures HasNode(list, m[key].listItor)
    ensures Represents([Node(bound, key)] + EraseNode(list, m[key].listItor), bound + 1,
                       m[key := MapValue(bound, m[key].multimapItor, value)],
                       [Item(key, value)] + Without(c, key))
  {
    var entry := MapValue(bound, m[key].multimapItor, value);
    EraseRepresents(list, bound, m, c, key);
    PushRepresents(EraseNode(list, m[key].listItor), bound, m - {key}, Without(c, key), key, entry);
    assert (m - {key})[key := entry] == m[key := entry];
  }

  lemma PopRepresents(list: seq<Node>, bound: NodeId, m: map<Key, MapValue>, c: Cache)
    requires Represents(list, bound, m, c) && c != []
    ensures list != [] && list[|list| - 1].key in m
    ensures Represents(list[..|list| - 1], bound, m - {list[|list| - 1].key}, c[..|c| - 1])
  {
    var last := |c| - 1;
    var front := c[..last];
    assert c == front + [c[last]];
    LastIsNew(front, c[last]);
    var m' := m - {list[last].key};
    forall i | 0 <= i < last ensures list[i].key in m' {
      assert c[i].key != c[last].key;
    }
    forall key | key in m' ensures Lookup(front, key) == Some(m'[key].value) {
      LookupAppend(front, c[last], key);
    }
  }

  /** The keys the multimap lists under a slot are the live keys filed there. */
  lemma SlotListsItsKeys(m: map<Key, MapValue>, bound: NodeId, slotToKey: map<NodeId, SlotEntry>, slotOf: map<Key, int>,
                         slot: int, key: Key)
    requires Indexed(m, bound, slotToKey, slotOf)
    ensures SlotEntry(slot, key) in slotToKey.Values <==> key in m && slotOf[key] == slot
    ensures forall n, n' :: n in slotToKey && n' in slotToKey && slotToKey[n].key == slotToKey[n'].key ==> n == n'
  {
    if key in m && slotOf[key] == slot {
      assert slotToKey[m[key].multimapItor] == SlotEntry(slot, key);
    }
  }

  lemma IndexDrop(m: map<Key, MapValue>, bound: NodeId, slotToKey: map<NodeId, SlotEntry>, slotOf: map<Key, int>, key: Key)
    requires Indexed(m, bound, slotToKey, slotOf) && key in m
    ensures Indexed(m - {key}, bound, slotToKey - {m[key].multimapItor}, slotOf - {key})
  {
  }

  lemma IndexAdd(m: map<Key, MapValue>, bound: NodeId, slotToKey: map<NodeId, SlotEntry>, slotOf: map<Key, int>,
                 key: Key, entry: MapValue, slot: int)
    requires Indexed(m, bound, slotToKey, slotOf) && key !in m && entry.multimapItor == bound
    ensures Indexed(m[key := entry], bound + 1, slotToKey[bound := SlotEntry(slot, key)], slotOf[key := slot])
  {
  }

  lemma IndexKeep(m: map<Key, MapValue>, bound: NodeId, slotToKey: map<NodeId, SlotEntry>, slotOf: map<Key, int>,
                  key: Key, entry: MapValue)
    requires Indexed(m, bound, slotToKey, slotOf) && key in m && entry.multimapItor == m[key].multimapItor
    ensures Indexed(m[key := entry], bound, slotToKey, slotOf)
  {
  }

  lemma RepresentsSize(list: seq<Node>, bound: NodeId, m: map<Key, MapValue>, c: Cache)
    requires Represents(list, bound, m, c)
    ensures Distinct(c) && |list| == |c|
    ensures forall i :: 0 <= i < |list| ==> list[i].key == c[i].key
  {
  }

  /** What the operations need to know before they hide the rest. */
  lemma Present(list: seq<Node>, bound: NodeId, m: map<Key, MapValue>, c: Cache, key: Key)
    requires Represents(list, bound, m, c)
    ensures key in m <==> Lookup(c, key).Some?
    ensures |list| == |c| && Distinct(c)
  {
    KeysAgree(list, bound, m, c, key);
  }

  lemma StoredValue(list: seq<Node>, bound: NodeId, m: map<Key, MapValue>, c: Cache, key: Key)
    requires Represents(list, bound, m, c)
    ensures key in m ==> Lookup(c, key) == Some(m[key].value)
  {
  }

  lemma DropStored(m: map<Key, MapValue>, bound: NodeId, slotToKey: map<NodeId, SlotEntry>, slotOf: map<Key, int>, key: Key)
    requires Indexed(m, bound, slotToKey, slotOf)
    ensures key in m ==> m[key].multimapItor in slotToKey
    ensures key !in m ==> slotOf - {key} == slotOf
  {
  }

  /** The slot under which each live key is filed: the one it was inserted with. */
  function Refile(slotOf: map<Key, int>, c: Cache, capacity: nat, op: Op, slot: int): map<Key, int> {
    match op
    case Get(_) => slotOf
    case Set(key, _) =>
      if Lookup(c, key).Some? then slotOf
      else if |c| >= capacity && c != [] then (slotOf - {c[|c| - 1].key})[key := slot]
      else slotOf[key := slot]
    case Del(key) => slotOf - {key}
  }

  /** What a Set does, by whether its key is there and whether the cache is full. */
  lemma SetIs(c: Cache, capacity: nat, key: Key, value: Value, slotOf: map<Key, int>, slot: int)
    ensures Lookup(c, key).Some? ==>
              && Apply(c, capacity, Set(key, value)) == [Item(key, value)] + Without(c, key)
              && Refile(slotOf, c, capacity, Set(key, value), slot) == slotOf
    ensures Lookup(c, key).None? ==> Apply(c, capacity, Set(key, value)) == [Item(key, value)] + Evict(c, capacity)
    ensures Lookup(c, key).None? && |c| < capacity ==>
              Evict(c, capacity) == c && Refile(slotOf, c, capacity, Set(key, value), slot) == slotOf[key := slot]
    ensures Lookup(c, key).None? && |c| >= capacity && c != [] ==>
              Refile(slotOf, c, capacity, Set(key, value), slot) == (slotOf - {c[|c| - 1].key})[key := slot]
  {
    hide Lookup, Without;
  }

  lemma GetIs(c: Cache, capacity: nat, key: Key)
    ensures Apply(c, capacity, Get(key))
         == if Lookup(c, key).Some? then [Item(key, Lookup(c, key).value)] + Without(c, key) else c
  {
  }

  lemma DelIs(c: Cache, capacity: nat, key: Key, slotOf: map<Key, int>)
    ensures Apply(c, capacity, Del(key)) == Without(c, key)
    ensures Refile(slotOf, c, capacity, Del(key), 0) == slotOf - {key}
  {
  }

  lemma LastUpdate(m: map<Key, MapValue>, key: Key, a: MapValue, b: MapValue)
    ensures m[key := a][key := b] == m[key := b]
  {
  }

  class Db {
    var lruList: seq<Node>
    var map_: map<Key, MapValue>
    var slotToKey: map<NodeId, SlotEntry>
    var slots: set<nat>
    const maxSize: nat
    var nextNode: NodeId               // identities given to list nodes
    var nextEntry: NodeId              // identities given to multimap entries
    ghost var cache: Cache
    ghost var slotOf: map<Key, int>

    ghost predicate Valid()
      reads this
    {
      && maxSize >= 1
      && |cache| <= maxSize
      && Represents(lruList, nextNode, map_, cache)
      && Indexed(map_, nextEntry, slotToKey, slotOf)
    }

    constructor (maxSize: nat)
      requires maxSize >= 1
      ensures Valid() && cache == [] && slotOf == map[] && this.maxSize == maxSize
    {
      this.maxSize := maxSize;
      lruList, map_, slotToKey, slots := [], map[], map[], {};
      nextNode, nextEntry := 0, 0;
      cache, slotOf := [], map[];
    }

    function IsOverSize(): bool
      reads this
    {
      |lruList| >= maxSize
    }

    method Contain(key: Key) returns (found: bool)
      requires Valid()
      ensures found <==> Lookup(cache, key).Some?
    {
      Present(lruList, nextNode, map_, cache, key);
      found := key in map_;
    }

    /** Erases the key's node through the stored iterator, puts a new one in front and stores the
        iterator to it. */
    method MoveToFront(key: Key)
      requires key in map_ && HasNode(lruList, map_[key].listItor)
      modifies this`lruList, this`map_, this`nextNode
      ensures lruList == [Node(old(nextNode), key)] + EraseNode(old(lruList), old(map_)[key].listItor)
      ensures map_ == old(map_)[key := old(map_)[key].(listItor := old(nextNode))]
      ensures nextNode == old(nextNode) + 1
    {
      hide HasNode, EraseNode;
      lruList := EraseNode(lruList, map_[key].listItor);
      lruList := [Node(nextNode, key)] + lruList;
      map_ := map_[key := map_[key].(listItor := nextNode)];
      nextNode := nextNode + 1;
    }

    method GetKV(key: Key) returns (found: bool, value: Value)
      requires Valid()
      modifies this`lruList, this`map_, this`nextNode, this`cache
      ensures Valid()
      ensures found == Lookup(old(cache), key).Some?
      ensures found ==> Some(value) == Lookup(old(cache), key)
      ensures cache == Apply(old(cache), maxSize, Get(key))
    {
      Present(lruList, nextNode, map_, cache, key);
      StoredValue(lruList, nextNode, map_, cache, key);
      GetIs(cache, maxSize, key);
      hide Represents, HasNode, Distinct, Indexed, Lookup, Without, Apply, EraseNode;
      if key !in map_ {
        return false, "";
      }
      value := map_[key].value;
      RepresentsSize(lruList, nextNode, map_, cache);
      ApplyKeeps(cache, maxSize, Get(key));
      TouchRepresents(lruList, nextNode, map_, cache, key, value);
      IndexKeep(map_, nextEntry, slotToKey, slotOf, key, map_[key].(listItor := nextNode));
      MoveToFront(key);
      cache := Apply(cache, maxSize, Get(key));
      found := true;
    }

    method DelKV(key: Key) returns (found: bool)
      requires Valid()
      modifies this`lruList, this`map_, this`slotToKey, this`cache, this`slotOf
      ensures Valid()
      ensures found == Lookup(old(cache), key).Some?
      ensures cache == Apply(old(cache), maxSize, Del(key))
      ensures slotOf == Refile(old(slotOf), old(cache), maxSize, Del(key), 0)
    {
      Present(lruList, nextNode, map_, cache, key);
      DropStored(map_, nextEntry, slotToKey, slotOf, key);
      DelIs(cache, maxSize, key, slotOf);
      hide Represents, HasNode, Distinct, Indexed, Lookup, Without, Apply, Refile, EraseNode;
      if key !in map_ {
        WithoutAbsent(cache, key);
        return false;
      }
      ApplyKeeps(cache, maxSize, Del(key));
      EraseRepresents(lruList, nextNode, map_, cache, key);
      IndexDrop(map_, nextEntry, slotToKey, slotOf, key);
      var listItor := map_[key].listItor;
      var multimapItor := map_[key].multimapItor;
      assert multimapItor in slotToKey;
      map_ := map_ - {key};
      lruList := EraseNode(lruList, listItor);
      slotToKey := slotToKey - {multimapItor};
      cache := Without(cache, key);
      slotOf := slotOf - {key};
      found := true;
    }

    method SetKV(key: Key, value: Value, slot: int)
      requires Valid()
      modifies this`lruList, this`map_, this`slotToKey, this`nextNode, this`nextEntry, this`cache, this`slotOf
      ensures Valid()
      ensures cache == Apply(old(cache), maxSize, Set(key, value))
      ensures slotOf == Refile(old(slotOf), old(cache), maxSize, Set(key, value), slot)
      ensures key in slotOf && (slotOf[key] == slot <==> Lookup(old(cache), key).None? || old(slotOf)[key] == slot)
    {
      Present(lruList, nextNode, map_, cache, key);
      SetIs(cache, maxSize, key, value, slotOf, slot);
      assert slotOf.Keys == map_.Keys;
      hide Represents, HasNode, Distinct, Indexed, Lookup, Without, Apply, Refile, Evict;
      if key in map_ {
        Refresh(key, value);
      } else {
        if IsOverSize() {
          EvictLast();
        }
        Insert(key, value, slot);
      }
    }

    /** The key is present: its value changes and it moves to the front. */
    method Refresh(key: Key, value: Value)
      requires Valid() && key in map_
      modifies this`lruList, this`map_, this`nextNode, this`cache
      ensures Valid()
      ensures cache == Apply(old(cache), maxSize, Set(key, value))
    {
      Present(lruList, nextNode, map_, cache, key);
      ApplyKeeps(cache, maxSize, Set(key, value));
      SetIs(cache, maxSize, key, value, slotOf, 0);
      TouchRepresents(lruList, nextNode, map_, cache, key, value);
      hide Represents, HasNode, Distinct, Indexed, Lookup, Without, EraseNode, Apply, Refile, Evict;
      var entry := map_[key].(value := value);
      IndexKeep(map_, nextEntry, slotToKey, slotOf, key, entry.(listItor := nextNode));
      LastUpdate(map_, key, entry, entry.(listItor := nextNode));
      map_ := map_[key := entry];
      MoveToFront(key);
      assert map_ == old(map_)[key := entry.(listItor := old(nextNode))];
      cache := [Item(key, value)] + Without(cache, key);
    }

    /** Drops the key at the back of the list from all three structures. */
    method EvictLast()
      requires Valid() && IsOverSize()
      modifies this`lruList, this`map_, this`slotToKey, this`cache, this`slotOf
      ensures Valid() && |cache| < maxSize
      ensures old(cache) != [] && cache == Evict(old(cache), maxSize)
      ensures slotOf == old(slotOf) - {old(cache)[|old(cache)| - 1].key}
      ensures forall k :: k in map_ ==> k in old(map_)
    {
      RepresentsSize(lruList, nextNode, map_, cache);
      hide Represents, Indexed;
      PopRepresents(lruList, nextNode, map_, cache);
      DropStored(map_, nextEntry, slotToKey, slotOf, lruList[|lruList| - 1].key);
      var back := lruList[|lruList| - 1].key;
      IndexDrop(map_, nextEntry, slotToKey, slotOf, back);
      var multimapItor := map_[back].multimapItor;
      map_ := map_ - {back};
      assert multimapItor in slotToKey;
      slotToKey := slotToKey - {multimapItor};
      lruList := lruList[..|lruList| - 1];
      cache := cache[..|cache| - 1];
      slotOf := slotOf - {back};
    }

    /** Adds an absent key at the front and files it under its slot. */
    method Insert(key: Key, value: Value, slot: int)
      requires Valid() && key !in map_ && |cache| < maxSize
      modifies this`lruList, this`map_, this`slotToKey, this`nextNode, this`nextEntry, this`cache, this`slotOf
      ensures Valid()
      ensures cache == [Item(key, value)] + old(cache)
      ensures slotOf == old(slotOf)[key := slot]
    {
      hide Represents, Indexed;
      var entry := MapValue(nextNode, nextEntry, value);
      PushRepresents(lruList, nextNode, map_, cache, key, entry);
      IndexAdd(map_, nextEntry, slotToKey, slotOf, key, entry, slot);
      lruList := [Node(nextNode, key)] + lruList;
      slotToKey := slotToKey[nextEntry := SlotEntry(slot, key)];
      map_ := map_[key := entry];
      nextNode, nextEntry := nextNode + 1, nextEntry + 1;
      cache := [Item(key, value)] + cache;
      slotOf := slotOf[key := slot];
    }

    method AddSlots(newSlots: set<nat>)
      modifies this`slots
      ensures slots == newSlots
    {
      slots := newSlots;
    }

    /** Installs a new slot set and hands back the slots on which it differs from the old one;
        when slots are only given up, those are exactly the slots to send away. */
    method DelSlots(newSlots: set<nat>) returns (changed: set<nat>)
      modifies this`slots
      ensures slots == newSlots
      ensures forall s :: s in changed <==> (s in old(slots)) != (s in newSlots)
      ensures newSlots <= old(slots) ==> changed == old(slots) - newSlots
    {
      changed := slots;
      slots := newSlots;
      changed := (changed - slots) + (slots - changed);
    }
  }

  // ---- Every trace ----

  datatype Command = Command(op: Op, slot: int)

  function Ops(commands: seq<Command>): (ops: seq<Op>)
    ensures |ops| == |commands|
  {
    seq(|commands|, i requires 0 <= i < |commands| => commands[i].op)
  }

  /** A fresh store of capacity `maxSize` answers any trace as the specification does. */
  method Drive(maxSize: nat, commands: seq<Command>) returns (db: Db, hits: seq<Option<Value>>)
    requires maxSize >= 1
    ensures fresh(db) && db.Valid() && db.cache == Run(maxSize, Ops(commands))
    ensures db.slotOf == FiledBy(maxSize, commands)
    ensures |hits| == |commands|
    ensures forall i :: 0 <= i < |commands| && commands[i].op.Get? ==>
              hits[i] == Lookup(Run(maxSize, Ops(commands)[..i]), commands[i].op.key)
  {
    hide Represents, Indexed, Lookup, Apply, Run, FiledBy;
    db := new Db(maxSize);
    hits := [];
    Nothing(maxSize);
    assert Ops(commands)[..0] == [] && commands[..0] == [];
    for i := 0 to |commands|
      invariant fresh(db) && db.Valid() && db.maxSize == maxSize
      invariant db.cache == Run(maxSize, Ops(commands)[..i]) && db.slotOf == FiledBy(maxSize, commands[..i])
      invariant |hits| == i
      invariant forall j :: 0 <= j < i && commands[j].op.Get? ==>
                  hits[j] == Lookup(Run(maxSize, Ops(commands)[..j]), commands[j].op.key)
    {
      OneMore(maxSize, commands, i);
      match commands[i].op {
        case Get(key) =>
          var found, value := db.GetKV(key);
          hits := hits + [if found then Some(value) else None];
        case Set(key, value) =>
          db.SetKV(key, value, commands[i].slot);
          hits := hits + [None];
        case Del(key) =>
          var _ := db.DelKV(key);
          hits := hits + [None];
      }
    }
    assert Ops(commands)[..|commands|] == Ops(commands);
    assert commands[..|commands|] == commands;
  }

  lemma Nothing(maxSize: nat)
    ensures Run(maxSize, []) == [] && FiledBy(maxSize, []) == map[]
  {
  }

  lemma OneMore(maxSize: nat, commands: seq<Command>, i: nat)
    requires i < |commands|
    ensures Run(maxSize, Ops(commands)[..i + 1]) == Apply(Run(maxSize, Ops(commands)[..i]), maxSize, commands[i].op)
    ensures FiledBy(maxSize, commands[..i + 1]) ==
            Refile(FiledBy(maxSize, commands[..i]), Run(maxSize, Ops(commands)[..i]), maxSize, commands[i].op, commands[i].slot)
  {
    assert Ops(commands)[..i + 1][..i] == Ops(commands)[..i];
    assert commands[..i + 1][..i] == commands[..i];
    assert Ops(commands[..i]) == Ops(commands)[..i];
  }

  function FiledBy(maxSize: nat, commands: seq<Command>): map<Key, int> {
    if commands == [] then map[]
    else
      var before, last := commands[..|commands| - 1], commands[|commands| - 1];
      Refile(FiledBy(maxSize, before), Run(maxSize, Ops(before)), maxSize, last.op, last.slot)
  }

  lemma EvictedKeys(c: Cache, key: Key)
    requires Distinct(c) && c != []
    ensures Lookup(c[..|c| - 1], key).Some? <==> Lookup(c, key).Some? && key != c[|c| - 1].key
  {
    hide Lookup;
    var front, last := c[..|c| - 1], c[|c| - 1];
    assert c == front + [last];
    LookupAppend(front, last, key);
    LastIsNew(front, last);
  }

  lemma InsertedKeys(c: Cache, item: Item, key: Key)
    ensures Lookup([item] + c, key).Some? <==> key == item.key || Lookup(c, key).Some?
  {
    assert ([item] + c)[1..] == c;
  }

  lemma RefileKeys(slotOf: map<Key, int>, c: Cache, capacity: nat, op: Op, slot: int, key: Key)
    requires Distinct(c) && capacity >= 1
    requires forall k :: k in slotOf <==> Lookup(c, k).Some?
    ensures key in Refile(slotOf, c, capacity, op, slot) <==> Lookup(Apply(c, capacity, op), key).Some?
  {
    hide Lookup, Without, Distinct;
    LookupWithout(c, op.key, key);
    match op {
      case Get(k) =>
        if Lookup(c, k).Some? {
          InsertedKeys(Without(c, k), Item(k, Lookup(c, k).value), key);
        }
      case Set(k, value) =>
        InsertedKeys(Without(c, k), Item(k, value), key);
        InsertedKeys(Evict(c, capacity), Item(k, value), key);
        if c != [] {
          EvictedKeys(c, key);
        }
      case Del(_) =>
    }
  }

  /** The keys filed are the live keys. */
  lemma {:induction false} LiveKeysAreFiled(maxSize: nat, commands: seq<Command>, key: Key)
    requires maxSize >= 1
    ensures key in FiledBy(maxSize, commands) <==> Lookup(Run(maxSize, Ops(commands)), key).Some?
  {
    if commands != [] {
      hide Refile, Lookup, Apply;
      var before, last := commands[..|commands| - 1], commands[|commands| - 1];
      forall k ensures k in FiledBy(maxSize, before) <==> Lookup(Run(maxSize, Ops(before)), k).Some? {
        LiveKeysAreFiled(maxSize, before, k);
      }
      RunKeeps(maxSize, Ops(before));
      RefileKeys(FiledBy(maxSize, before), Run(maxSize, Ops(before)), maxSize, last.op, last.slot, key);
      assert Ops(commands)[..|commands| - 1] == Ops(before);
    } else {
      Nothing(maxSize);
    }
  }

  /** The slot sent with the last Set of a key, and with the last one that found it absent. */
  function LastSlot(commands: seq<Command>, key: Key): Option<int> {
    if commands == [] then None
    else
      var before, last := commands[..|commands| - 1], commands[|commands| - 1];
      if last.op.Set? && last.op.key == key then Some(last.slot) else LastSlot(before, key)
  }

  function InsertionSlot(maxSize: nat, commands: seq<Command>, key: Key): Option<int> {
    if commands == [] then None
    else
      var before, last := commands[..|commands| - 1], commands[|commands| - 1];
      if last.op.Set? && last.op.key == key && Lookup(Run(maxSize, Ops(before)), key).None? then Some(last.slot)
      else InsertionSlot(maxSize, before, key)
  }

  /** After any trace a live key is filed under the slot it was inserted with: that of the last
      Set that found it absent.  So it is filed under the slot last sent with it if and only if
      that is the slot of its insertion. */
  lemma {:induction false} FiledUnderInsertionSlot(maxSize: nat, commands: seq<Command>, key: Key)
    requires key in FiledBy(maxSize, commands)
    ensures InsertionSlot(maxSize, commands, key) == Some(FiledBy(maxSize, commands)[key])
    ensures LastSlot(commands, key).Some?
    ensures LastSlot(commands, key) == Some(FiledBy(maxSize, commands)[key])
       <==> LastSlot(commands, key) == InsertionSlot(maxSize, commands, key)
  {
    var before, last := commands[..|commands| - 1], commands[|commands| - 1];
    if key in FiledBy(maxSize, before) {
      FiledUnderInsertionSlot(maxSize, before, key);
    }
  }

  /** One Set files its key under the slot sent with it if and only if the key was absent or is
      filed there already. */
  lemma FiledUnderSentSlotIff(slotOf: map<Key, int>, c: Cache, capacity: nat, key: Key, value: Value, slot: int)
    requires forall k :: k in slotOf <==> Lookup(c, k).Some?
    ensures var after := Refile(slotOf, c, capacity, Set(key, value), slot);
            key in after && (after[key] == slot <==> key !in slotOf || slotOf[key] == slot)
  {
  }

  /** When the slot sent with a key is a function of the key, every live key is filed under
      that slot, so the keys listed under a slot are exactly the live keys of the slot. */
  lemma {:induction false} FiledUnderOwnSlot(maxSize: nat, commands: seq<Command>, slotOfKey: Key -> int)
    requires forall i :: 0 <= i < |commands| && commands[i].op.Set? ==> commands[i].slot == slotOfKey(commands[i].op.key)
    ensures forall key :: key in FiledBy(maxSize, commands) ==> FiledBy(maxSize, commands)[key] == slotOfKey(key)
  {
    if commands != [] {
      FiledUnderOwnSlot(maxSize, commands[..|commands| - 1], slotOfKey);
    }
  }

  /** A key that is set again with another slot stays filed under the slot of its insertion. */
  lemma ResetKeepsOldSlot(maxSize: nat, key: Key, value: Value, first: int, second: int)
    requires maxSize >= 1 && first != second
    ensures var commands := [Command(Set(key, value), first), Command(Set(key, value), second)];
            key in FiledBy(maxSize, commands) && FiledBy(maxSize, commands)[key] == first
  {
    var one := [Command(Set(key, value), first)];
    var two := [Command(Set(key, value), first), Command(Set(key, value), second)];
    assert one[..0] == [] && two[..1] == one;
    assert Ops(one) == [Set(key, value)] && Ops(one)[..0] == [];
    assert Run(maxSize, []) == [];
    assert Run(maxSize, Ops(one)) == [Item(key, value)];
    assert FiledBy(maxSize, one) == map[key := first];
  }
}
