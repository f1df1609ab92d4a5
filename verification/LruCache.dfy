/** The two map-plus-list caches, each against the recency list. */
module LruCache {
  import opened Common
  import opened Recency

  /** A list element; its key stays, its value is overwritten in place. */
  class Element<K, V> {
    const key: K
    var value: V

    constructor (key: K, value: V)
      ensures this.key == key && this.value == value
    {
      this.key, this.value := key, value;
    }
  }

  // ---------------------------------------------------------------- the list of elements

  /** The keys and values of a list of elements, front first. */
  ghost function Pairs<K, V>(order: seq<Element<K, V>>): (r: Entries<K, V>)
    reads order
    ensures |r| == |order|
  {
    if order == [] then [] else [(order[0].key, order[0].value)] + Pairs(order[1..])
  }

  lemma {:induction false} PairAt<K, V>(order: seq<Element<K, V>>, i: nat)
    requires i < |order|
    ensures Pairs(order)[i] == (order[i].key, order[i].value)
  {
    if i > 0 { PairAt(order[1..], i - 1); }
  }

  lemma {:induction false} PairsWithout<K, V>(order: seq<Element<K, V>>, i: nat)
    requires i < |order|
    ensures Pairs(order[..i] + order[i + 1..]) == Pairs(order)[..i] + Pairs(order)[i + 1..]
  {
    if i == 0 {
      assert order[..0] + order[1..] == order[1..];
    } else {
      PairsWithout(order[1..], i - 1);
      assert order[..i] + order[i + 1..] == [order[0]] + (order[1..][..i - 1] + order[1..][i..]);
    }
  }

  /** The map holds exactly the elements of the list, each under its key. */
  ghost predicate Indexed<K, V>(items: map<K, Element<K, V>>, order: seq<Element<K, V>>)
  {
    && (forall i :: 0 <= i < |order| ==> order[i].key in items && items[order[i].key] == order[i])
    && (forall k :: k in items ==> items[k] in order && items[k].key == k)
    && Distinct(order)
  }

  function IndexOf<T(==)>(s: seq<T>, x: T): (i: nat)
    requires x in s
    ensures i < |s| && s[i] == x
  {
    if s[0] == x then 0 else 1 + IndexOf(s[1..], x)
  }

  /** list.Remove and list.MoveToFront. */
  function RemoveElement<T(==)>(s: seq<T>, x: T): seq<T>
    requires x in s
  {
    s[..IndexOf(s, x)] + s[IndexOf(s, x) + 1..]
  }

  function MoveToFront<T(==)>(s: seq<T>, x: T): seq<T>
    requires x in s
  {
    [x] + RemoveElement(s, x)
  }

  /** What the map knows of a key is what the recency list knows of it. */
  lemma Known<K, V>(items: map<K, Element<K, V>>, order: seq<Element<K, V>>, k: K)
    requires Indexed(items, order)
    ensures DistinctKeys(Pairs(order))
    ensures k in items ==> Lookup(Pairs(order), k) == Some(items[k].value)
    ensures k in items ==> Without(Pairs(order), k) == Pairs(RemoveElement(order, items[k]))
    ensures k !in items ==> Lookup(Pairs(order), k) == None && Without(Pairs(order), k) == Pairs(order)
  {
    forall i | 0 <= i < |order| ensures Pairs(order)[i] == (order[i].key, order[i].value) { PairAt(order, i); }
    KeysDistinct(items, order);
    if k in items {
      var i := IndexOf(order, items[k]);
      WithoutAt(Pairs(order), k, i);
      PairsWithout(order, i);
    } else {
      WithoutMissing(Pairs(order), k);
    }
  }

  lemma KeysDistinct<K, V>(items: map<K, Element<K, V>>, order: seq<Element<K, V>>)
    requires Indexed(items, order)
    ensures DistinctKeys(Pairs(order))
  {
    forall i, j | 0 <= i < j < |order| ensures Pairs(order)[i].0 != Pairs(order)[j].0 {
      PairAt(order, i);
      PairAt(order, j);
    }
  }

  /** Taking an element out or moving it adds none. */
  lemma NoneAdded<T>(s: seq<T>, x: T)
    requires x in s
    ensures forall e :: e in RemoveElement(s, x) ==> e in s
    ensures forall e :: e in MoveToFront(s, x) ==> e in s
    ensures |MoveToFront(s, x)| == |s|
  {
  }

  lemma MovedIndexed<K, V>(items: map<K, Element<K, V>>, order: seq<Element<K, V>>, k: K)
    requires Indexed(items, order) && k in items
    ensures Indexed(items, MoveToFront(order, items[k]))
  {
    var moved := MoveToFront(order, items[k]);
    NoneAdded(order, items[k]);
    MovedDistinct(order, items[k]);
    forall i | 0 <= i < |moved| ensures moved[i].key in items && items[moved[i].key] == moved[i] {
      assert moved[i] in order;
    }
    forall j | j in items ensures items[j] in moved {
      StillThere(order, items[k], items[j]);
    }
  }

  lemma StillThere<T>(s: seq<T>, x: T, y: T)
    requires x in s && y in s
    ensures y in MoveToFront(s, x)
  {
    var i, m, moved := IndexOf(s, x), IndexOf(s, y), MoveToFront(s, x);
    assert y == if m == i then moved[0] else if m < i then moved[m + 1] else moved[m];
  }

  lemma MovedDistinct<T>(s: seq<T>, x: T)
    requires x in s && Distinct(s)
    ensures Distinct(MoveToFront(s, x))
  {
  }

  lemma RemovedIndexed<K, V>(items: map<K, Element<K, V>>, order: seq<Element<K, V>>, k: K)
    requires Indexed(items, order) && k in items
    ensures Indexed(items - {k}, RemoveElement(order, items[k]))
  {
    var i := IndexOf(order, items[k]);
    var rest := RemoveElement(order, items[k]);
    forall j | j in items && j != k ensures items[j] in rest {
      var m := IndexOf(order, items[j]);
      assert items[j] == if m < i then rest[m] else rest[m - 1];
    }
  }

  lemma PushedIndexed<K, V>(items: map<K, Element<K, V>>, order: seq<Element<K, V>>, el: Element<K, V>)
    requires Indexed(items, order) && el.key !in items
    ensures Indexed(items[el.key := el], [el] + order)
  {
    forall k | k in items ensures items[k] in [el] + order {
      var m := IndexOf(order, items[k]);
      assert ([el] + order)[m + 1] == items[k];
    }
  }

  lemma LastRemoved<K, V>(order: seq<Element<K, V>>)
    requires order != [] && Distinct(order)
    ensures RemoveElement(order, order[|order| - 1]) == order[..|order| - 1]
  {
    var i := IndexOf(order, order[|order| - 1]);
    assert i == |order| - 1;
  }

  /** A fresh front element. */
  lemma PushedPairs<K, V>(order: seq<Element<K, V>>, el: Element<K, V>)
    ensures Pairs([el] + order) == [(el.key, el.value)] + Pairs(order)
  {
    assert ([el] + order)[1..] == order;
  }

  /** Without its last element. */
  lemma EvictedOk<K, V>(items: map<K, Element<K, V>>, order: seq<Element<K, V>>)
    requires Indexed(items, order) && order != []
    ensures var oldest := order[|order| - 1];
            && RemoveElement(order, oldest) == order[..|order| - 1]
            && Indexed(items - {oldest.key}, RemoveElement(order, oldest))
            && Pairs(RemoveElement(order, oldest)) == Pairs(order)[..|order| - 1]
  {
    var n := |order| - 1;
    LastRemoved(order);
    RemovedIndexed(items, order, order[n].key);
    PairsWithout(order, n);
    assert order[..n] + order[n + 1..] == order[..n];
  }

  /** Overwrites the value of an element that is in front of its list. */
  method Overwrite<K, V>(el: Element<K, V>, ghost rest: seq<Element<K, V>>, value: V)
    requires el !in rest
    modifies el
    ensures el.value == value
    ensures Pairs([el] + rest) == [(el.key, value)] + old(Pairs(rest))
  {
    el.value := value;
    PushedPairs(rest, el);
  }

  lemma RemovedGone<T>(s: seq<T>, x: T)
    requires x in s && Distinct(s)
    ensures x !in RemoveElement(s, x)
  {
  }

  // ---------------------------------------------------------------- the cache

  class Lru<K(==), V> {
    const capacity: int
    var items: map<K, Element<K, V>>
    var order: seq<Element<K, V>>

    ghost predicate Valid()
      reads this
    {
      Indexed(items, order) && |order| <= Cap(capacity)
    }

    /** The recency list that the cache is. */
    ghost function Contents(): Entries<K, V>
      reads this, order
    {
      Pairs(order)
    }

    constructor (capacity: int)
      ensures Valid() && Contents() == [] && this.capacity == capacity
    {
      this.capacity, items, order := capacity, map[], [];
    }

    method Get(key: K) returns (r: Option<V>)
      requires Valid()
      modifies this
      ensures Valid() && forall e :: e in order && e !in old(order) ==> fresh(e)
      ensures r == Lookup(old(Contents()), key) && Contents() == Got(old(Contents()), key)
      ensures items.Keys == old(items.Keys)
    {
      Known(items, order, key);
      if key !in items {
        return None;
      }
      MovedIndexed(items, order, key);
      NoneAdded(order, items[key]);
      order := MoveToFront(order, items[key]);
      return Some(items[key].value);
    }

    /** Moves the element of a cached key to the front and overwrites its value. */
    method Update(key: K, value: V)
      requires Valid() && key in items
      modifies this`order, items[key]
      ensures Valid() && forall e :: e in order ==> e in old(order)
      ensures Contents() == [(key, value)] + Without(old(Contents()), key)
    {
      Known(items, order, key);
      MovedIndexed(items, order, key);
      NoneAdded(order, items[key]);
      RemovedGone(order, items[key]);
      ghost var rest := RemoveElement(order, items[key]);
      order := MoveToFront(order, items[key]);
      Overwrite(items[key], rest, value);
    }

    /** Removes the element at the back and its key. */
    method EvictOldest()
      requires Valid() && order != []
      modifies this
      ensures Valid() && |order| == |old(order)| - 1 && forall e :: e in order ==> e in old(order)
      ensures Contents() == old(Contents())[..|order|] && items.Keys <= old(items.Keys)
    {
      EvictedOk(items, order);
      var oldest := order[|order| - 1];
      order := RemoveElement(order, oldest);
      items := items - {oldest.key};
    }

    /** Inserts an element for a key that is not cached, in front. */
    method Push(key: K, value: V)
      requires Indexed(items, order) && key !in items && |order| < Cap(capacity)
      modifies this
      ensures Valid() && forall e :: e in order && e !in old(order) ==> fresh(e)
      ensures Contents() == [(key, value)] + old(Contents())
      ensures items.Keys == old(items.Keys) + {key}
    {
      var el := new Element(key, value);
      PushedIndexed(items, order, el);
      PushedPairs(order, el);
      order := [el] + order;
      items := items[key := el];
    }

    method Put(key: K, value: V)
      requires Valid()
      modifies this, order
      ensures Valid() && forall e :: e in order && e !in old(order) ==> fresh(e)
      ensures Contents() == Recency.Put(capacity, old(Contents()), key, value)
      ensures key in items && items.Keys <= old(items.Keys) + {key}
    {
      Known(items, order, key);
      if key in items {
        Update(key, value);
        return;
      }
      if |order| >= capacity {
        if order != [] {
          EvictOldest();
        }
      }
      Push(key, value);
    }

    method Delete(key: K)
      requires Valid()
      modifies this
      ensures Valid() && forall e :: e in order && e !in old(order) ==> fresh(e)
      ensures Contents() == Without(old(Contents()), key)
      ensures items.Keys == old(items.Keys) - {key}
    {
      Known(items, order, key);
      if key in items {
        RemovedIndexed(items, order, key);
        NoneAdded(order, items[key]);
        order := RemoveElement(order, items[key]);
        items := items - {key};
      }
    }
  }

  /** The embedding cache: the same list under the hashes of its texts. */
  class EmbeddingCache {
    const hash: string -> string
    const maxSize: int
    var cache: map<string, Element<string, seq<real>>>
    var lru: seq<Element<string, seq<real>>>

    ghost predicate Valid()
      reads this
    {
      Indexed(cache, lru) && 0 < maxSize && |lru| <= maxSize
    }

    ghost function Contents(): Entries<string, seq<real>>
      reads this, lru
    {
      Pairs(lru)
    }

    constructor (hash: string -> string, maxSize: int)
      ensures Valid() && Contents() == [] && this.hash == hash
      ensures this.maxSize == if maxSize <= 0 then 10000 else maxSize
    {
      this.hash, this.maxSize := hash, if maxSize <= 0 then 10000 else maxSize;
      cache, lru := map[], [];
    }

    method Get(text: string) returns (r: Option<seq<real>>)
      requires Valid()
      modifies this
      ensures Valid() && forall e :: e in lru && e !in old(lru) ==> fresh(e)
      ensures r == Lookup(old(Contents()), hash(text)) && Contents() == Got(old(Contents()), hash(text))
    {
      var key := hash(text);
      Known(cache, lru, key);
      if key in cache {
        MovedIndexed(cache, lru, key);
        NoneAdded(lru, cache[key]);
        lru := MoveToFront(lru, cache[key]);
        return Some(cache[key].value);
      }
      return None;
    }

    /** Moves the element of a cached key to the front and overwrites its value. */
    method Update(key: string, vec: seq<real>)
      requires Valid() && key in cache
      modifies this`lru, cache[key]
      ensures Valid() && forall e :: e in lru ==> e in old(lru)
      ensures Contents() == [(key, vec)] + Without(old(Contents()), key)
    {
      Known(cache, lru, key);
      MovedIndexed(cache, lru, key);
      NoneAdded(lru, cache[key]);
      RemovedGone(lru, cache[key]);
      ghost var rest := RemoveElement(lru, cache[key]);
      lru := MoveToFront(lru, cache[key]);
      Overwrite(cache[key], rest, vec);
    }

    /** Removes the element at the back and its key. */
    method EvictOldest()
      requires Valid() && lru != []
      modifies this
      ensures Valid() && |lru| == |old(lru)| - 1 && forall e :: e in lru ==> e in old(lru)
      ensures Contents() == old(Contents())[..|lru|] && cache.Keys <= old(cache.Keys)
    {
      EvictedOk(cache, lru);
      var oldest := lru[|lru| - 1];
      lru := RemoveElement(lru, oldest);
      cache := cache - {oldest.key};
    }

    /** Inserts an element for a key that is not cached, in front. */
    method Push(key: string, vec: seq<real>)
      requires Indexed(cache, lru) && key !in cache && |lru| < maxSize && 0 < maxSize
      modifies this
      ensures Valid() && forall e :: e in lru && e !in old(lru) ==> fresh(e)
      ensures Contents() == [(key, vec)] + old(Contents())
      ensures cache.Keys == old(cache.Keys) + {key}
    {
      var el := new Element(key, vec);
      PushedIndexed(cache, lru, el);
      PushedPairs(lru, el);
      lru := [el] + lru;
      cache := cache[key := el];
    }

    method Set(text: string, vec: seq<real>)
      requires Valid()
      modifies this, lru
      ensures Valid() && forall e :: e in lru && e !in old(lru) ==> fresh(e)
      ensures Contents() == Recency.Put(maxSize, old(Contents()), hash(text), vec)
    {
      var key := hash(text);
      Known(cache, lru, key);
      if key in cache {
        Update(key, vec);
        return;
      }
      if |lru| >= maxSize {
        if lru != [] {
          EvictOldest();
        }
      }
      Push(key, vec);
    }

    method Clear()
      requires Valid()
      modifies this
      ensures Valid() && Contents() == []
    {
      cache := map[];
      lru := [];
    }

    method Size() returns (n: nat)
      requires Valid()
      ensures n == |Contents()| <= maxSize
    {
      n := |lru|;
    }
  }

  /** What the cache's operations on texts do, as operations on keys. */
  function Hashed<V>(hash: string -> string, ops: seq<Op<string, V>>): (r: seq<Op<string, V>>)
    ensures |r| == |ops|
  {
    if ops == [] then []
    else
      var n := |ops| - 1;
      Hashed(hash, ops[..n]) + [match ops[n]
                                case OpGet(t) => OpGet(hash(t))
                                case OpPut(t, v) => OpPut(hash(t), v)
                                case OpDelete(t) => OpDelete(hash(t))
                                case OpClear => OpClear]
  }

  /** No other text that the operations set or delete has the hash of this one. */
  ghost predicate OwnHash<V>(hash: string -> string, ops: seq<Op<string, V>>, text: string) {
    forall op :: op in ops && (op.OpPut? || op.OpDelete?) && hash(op.k) == hash(text) ==> op.k == text
  }

  /** Then what is last put under the hash is what was last set for the text. */
  lemma {:induction false} HashedLastPut<V>(hash: string -> string, ops: seq<Op<string, V>>, text: string)
    requires OwnHash(hash, ops, text)
    ensures LastPut(Hashed(hash, ops), hash(text)) == LastPut(ops, text)
  {
    if ops != [] {
      var n := |ops| - 1;
      assert ops[n] in ops;
      assert forall op :: op in ops[..n] ==> op in ops;
      HashedLastPut(hash, ops[..n], text);
      assert Hashed(hash, ops)[..n] == Hashed(hash, ops[..n]);
    }
  }

  /** A hit gives the vector last set for the text itself. */
  lemma HitIsOwnVector<V>(hash: string -> string, maxSize: int, ops: seq<Op<string, V>>, text: string)
    requires OwnHash(hash, ops, text)
    ensures var hit := Lookup(Run(maxSize, Hashed(hash, ops)), hash(text));
            hit.Some? ==> hit == LastPut(ops, text)
  {
    var l := Run(maxSize, Hashed(hash, ops));
    RunBounded(maxSize, Hashed(hash, ops));
    var i := Find(l, hash(text));
    if i < |l| {
      HoldsLastPut(maxSize, Hashed(hash, ops), i);
      HashedLastPut(hash, ops, text);
    }
  }
}
