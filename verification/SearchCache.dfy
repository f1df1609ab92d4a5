/** The search-result cache: entries by query, and the queries ordered by use, oldest first. */
module SearchCache {
  import opened Bytes
  import opened Common
  import opened Trigrams

  datatype Entry<+R> = Entry(query: Text, trigrams: seq<int>, results: R, createdAt: int)

  type Entries<+R> = map<Text, Entry<R>>

  // ---------------------------------------------------------------- the order of use

  ghost predicate Live<R>(m: Entries<R>, k: Text, ttl: int, now: int) {
    k in m && now - m[k].createdAt < ttl
  }

  function Without(order: seq<Text>, key: Text): seq<Text> {
    if order == [] then []
    else if order[0] == key then order[1..]
    else [order[0]] + Without(order[1..], key)
  }

  /** The used key goes to the end. */
  function Used(order: seq<Text>, key: Text): seq<Text> { Without(order, key) + [key] }

  /** The key used last is the newest; nothing else moves. */
  lemma UsedIsLast(order: seq<Text>, key: Text)
    ensures var used := Used(order, key);
            used != [] && used[|used| - 1] == key && used[..|used| - 1] == Without(order, key)
  {
  }

  function Unexpired<R>(m: Entries<R>, order: seq<Text>, ttl: int, now: int): seq<Text> {
    if order == [] then []
    else
      var last := order[|order| - 1];
      Unexpired(m, order[..|order| - 1], ttl, now)
      + if last in m && now - m[last].createdAt < ttl then [last] else []
  }

  /** The order holds exactly the keys, each once. */
  ghost predicate Ranks<R>(order: seq<Text>, m: Entries<R>) {
    Distinct(order) && forall k :: k in order <==> k in m
  }

  ghost predicate Consistent<R>(m: Entries<R>) {
    forall k :: k in m ==> m[k].query == k && IsTrigrams(m[k].trigrams, k)
  }

  lemma DistinctWith(s: seq<Text>, x: Text)
    requires Distinct(s) && x !in s
    ensures Distinct([x] + s) && Distinct(s + [x])
  {
  }

  lemma {:induction false} WithoutHas(order: seq<Text>, key: Text)
    requires Distinct(order)
    ensures Distinct(Without(order, key))
    ensures forall k :: k in Without(order, key) <==> k in order && k != key
    ensures |Without(order, key)| == |order| - if key in order then 1 else 0
  {
    if order != [] {
      assert order == [order[0]] + order[1..];
      assert order[0] !in order[1..];
      if order[0] != key {
        WithoutHas(order[1..], key);
        DistinctWith(Without(order[1..], key), order[0]);
      }
    }
  }

  lemma {:induction false} WithoutAt(order: seq<Text>, key: Text, i: nat)
    requires i <= |order| && key !in order[..i] && (i < |order| ==> order[i] == key)
    ensures Without(order, key) == if i < |order| then order[..i] + order[i + 1..] else order
  {
    if order != [] && i > 0 {
      NotFirst(order, key, i);
      WithoutAt(order[1..], key, i - 1);
      if i < |order| {
        OneShifted(order, i);
      }
    }
  }

  lemma NotFirst(order: seq<Text>, key: Text, i: nat)
    requires 0 < i <= |order| && key !in order[..i]
    ensures Without(order, key) == [order[0]] + Without(order[1..], key) && key !in order[1..][..i - 1]
  {
    assert order[0] in order[..i];
    assert order[..i] == [order[0]] + order[1..][..i - 1];
  }

  lemma OneShifted(order: seq<Text>, i: nat)
    requires 0 < i < |order|
    ensures [order[0]] + (order[1..][..i - 1] + order[1..][i..]) == order[..i] + order[i + 1..]
  {
  }

  /** Using a key keeps the order a ranking of the keys. */
  lemma UsedRanks<R>(order: seq<Text>, m: Entries<R>, key: Text)
    requires Ranks(order, m) && key in m
    ensures Ranks(Used(order, key), m) && |Used(order, key)| == |order|
  {
    WithoutHas(order, key);
    DistinctWith(Without(order, key), key);
  }

  lemma {:induction false} UnexpiredHas<R>(m: Entries<R>, order: seq<Text>, ttl: int, now: int)
    requires Distinct(order)
    ensures Distinct(Unexpired(m, order, ttl, now))
    ensures forall k :: k in Unexpired(m, order, ttl, now) <==> k in order && Live(m, k, ttl, now)
    ensures |Unexpired(m, order, ttl, now)| <= |order|
  {
    if order != [] {
      var front, last := order[..|order| - 1], order[|order| - 1];
      assert order == front + [last];
      UnexpiredHas(m, front, ttl, now);
      if Live(m, last, ttl, now) {
        DistinctWith(Unexpired(m, front, ttl, now), last);
      }
    }
  }

  /** The entries without the expired ones of the order. */
  function Purged<R>(m: Entries<R>, order: seq<Text>, ttl: int, now: int): Entries<R> {
    if order == [] then m
    else
      var last := order[|order| - 1];
      var rest := Purged(m, order[..|order| - 1], ttl, now);
      if last in m && now - m[last].createdAt < ttl then rest else rest - {last}
  }

  lemma {:induction false} PurgedAt<R>(m: Entries<R>, order: seq<Text>, ttl: int, now: int, k: Text)
    ensures k in Purged(m, order, ttl, now) <==> k in m && (k in order ==> Live(m, k, ttl, now))
    ensures k in Purged(m, order, ttl, now) ==> Purged(m, order, ttl, now)[k] == m[k]
  {
    if order != [] {
      var front, last := order[..|order| - 1], order[|order| - 1];
      PurgedAt(m, front, ttl, now, k);
      assert order == front + [last];
    }
  }

  /** One more of an order without repetitions. */
  lemma PurgedNext<R>(m: Entries<R>, order: seq<Text>, i: nat, ttl: int, now: int)
    requires i < |order| && Distinct(order)
    ensures var p, u, key := Purged(m, order[..i], ttl, now), Unexpired(m, order[..i], ttl, now), order[i];
            var expired := key !in p || now - p[key].createdAt >= ttl;
            && Purged(m, order[..i + 1], ttl, now) == (if expired then p - {key} else p)
            && Unexpired(m, order[..i + 1], ttl, now) == if expired then u else u + [key]
  {
    assert order[..i + 1][..i] == order[..i];
    assert order[i] !in order[..i];
    PurgedAt(m, order[..i], ttl, now, order[i]);
  }

  lemma PurgedRanks<R>(m: Entries<R>, order: seq<Text>, ttl: int, now: int)
    requires Ranks(order, m)
    ensures var p := Purged(m, order, ttl, now);
            && Ranks(Unexpired(m, order, ttl, now), p) && Part(p, m) && |Unexpired(m, order, ttl, now)| <= |order|
            && forall k :: k in p <==> Live(m, k, ttl, now)
  {
    UnexpiredHas(m, order, ttl, now);
    forall k
      ensures var p := Purged(m, order, ttl, now); (k in p <==> Live(m, k, ttl, now)) && (k in p ==> p[k] == m[k])
    {
      PurgedAt(m, order, ttl, now, k);
    }
  }

  ghost predicate Part<R>(m: Entries<R>, all: Entries<R>) { forall k :: k in m ==> k in all && m[k] == all[k] }

  /** The last `n` keys. */
  function Newest(order: seq<Text>, n: nat): (r: seq<Text>)
    ensures |r| <= n
  {
    if |order| <= n then order else Newest(order[1..], n)
  }

  lemma {:induction false} NewestAreLast(order: seq<Text>, n: nat)
    ensures Newest(order, n) == if |order| <= n then order else order[|order| - n..]
  {
    if |order| > n {
      NewestAreLast(order[1..], n);
    }
  }

  lemma {:induction false} RanksSize<R>(order: seq<Text>, m: Entries<R>)
    requires Ranks(order, m)
    ensures |order| == |m|
  {
    if order == [] {
      assert m.Keys == {};
    } else {
      var last := order[|order| - 1];
      assert Ranks(order[..|order| - 1], m - {last});
      RanksSize(order[..|order| - 1], m - {last});
      assert m.Keys == (m - {last}).Keys + {last};
    }
  }

  lemma WithoutFirst<R>(order: seq<Text>, m: Entries<R>)
    requires Ranks(order, m) && order != []
    ensures Ranks(order[1..], m - {order[0]})
  {
    assert order == [order[0]] + order[1..];
  }

  // ---------------------------------------------------------------- similar entries

  ghost function Sim(a: Text, b: Text): real { Similarity(Grams(a), Grams(b)) }

  const THRESHOLD := 0.7

  /** A live entry is a similarity hit: similar enough, and none is more similar. */
  ghost predicate Best<R>(m: Entries<R>, key: Text, k: Text, ttl: int, now: int) {
    && Live(m, k, ttl, now) && Sim(key, k) >= THRESHOLD
    && forall j :: Live(m, j, ttl, now) ==> Sim(key, j) <= Sim(key, k)
  }

  /** A key has new results; every other entry is one of before. */
  ghost predicate Stored<R>(m: Entries<R>, was: Entries<R>, key: Text, results: R, now: int)
    requires key in m
  {
    && m[key].results == results && m[key].createdAt == now
    && forall k :: k in m && k != key ==> k in was && m[k] == was[k]
  }

  // ---------------------------------------------------------------- the cache

  class Cache<R> {
    const normalize: Text -> Text
    const maxEntries: int
    const ttl: int
    var entries: Entries<R>
    var order: seq<Text>

    ghost predicate Valid()
      reads this
    {
      maxEntries > 0 && ttl > 0 && Ranks(order, entries) && Consistent(entries) && |order| <= maxEntries
    }

    constructor (normalize: Text -> Text, maxEntries: int, ttl: int)
      ensures Valid() && entries == map[] && this.normalize == normalize
      ensures this.maxEntries == (if maxEntries <= 0 then 50 else maxEntries)
      ensures this.ttl == if ttl <= 0 then 300_000_000_000 else ttl
    {
      this.normalize, entries, order := normalize, map[], [];
      this.maxEntries := if maxEntries <= 0 then 50 else maxEntries;
      this.ttl := if ttl <= 0 then 300_000_000_000 else ttl;
    }

    /** The position of a key in the order. */
    method IndexOf(key: Text) returns (i: nat)
      ensures i <= |order| && key !in order[..i] && (i < |order| ==> order[i] == key)
    {
      i := 0;
      while i < |order| && order[i] != key
        invariant i <= |order| && key !in order[..i]
      {
        i := i + 1;
      }
    }

    method MoveToEnd(key: Text)
      requires Valid() && key in entries
      modifies this`order
      ensures Valid() && order == Used(old(order), key)
    {
      UsedRanks(order, entries, key);
      var i := IndexOf(key);
      WithoutAt(order, key, i);
      if i < |order| {
        order := order[..i] + order[i + 1..];
      }
      order := order + [key];
    }

    /** The most similar live entry, in whatever order the entries come. */
    method MostSimilar(key: Text, now: int) returns (best: Option<Text>, sim: real)
      requires Valid()
      ensures sim >= 0.0 && forall k :: Live(entries, k, ttl, now) ==> Sim(key, k) <= sim
      ensures best.Some? ==> Live(entries, best.value, ttl, now) && Sim(key, best.value) == sim
      ensures best.None? ==> sim == 0.0
    {
      var trigrams := BuildTrigrams(key);
      best, sim := None, 0.0;
      var todo := entries.Keys;
      while todo != {}
        invariant todo <= entries.Keys && sim >= 0.0
        invariant forall k :: Live(entries, k, ttl, now) && k !in todo ==> Sim(key, k) <= sim
        invariant best.Some? ==> Live(entries, best.value, ttl, now) && Sim(key, best.value) == sim
        invariant best.None? ==> sim == 0.0
        decreases |todo|
      {
        var k :| k in todo;
        todo := todo - {k};
        if now - entries[k].createdAt < ttl {
          var s := JaccardSimilarity(trigrams, entries[k].trigrams);
          if s > sim {
            best, sim := Some(k), s;
          }
        }
      }
    }

    /** An exact live entry is the hit, else a most similar one if it is similar enough; the
        hit is moved to the end and nothing else changes. */
    method Get(query: Text, now: int) returns (r: Option<R>, ghost hit: Option<Text>)
      requires Valid()
      modifies this`order
      ensures Valid()
      ensures var key := normalize(query);
              && (key == [] ==> hit == None)
              && (key != [] && Live(entries, key, ttl, now) ==> hit == Some(key))
              && (key != [] && !Live(entries, key, ttl, now) ==>
                    && (hit.Some? ==> Best(entries, key, hit.value, ttl, now))
                    && (hit.None? ==> forall k :: Live(entries, k, ttl, now) ==> Sim(key, k) < THRESHOLD))
      ensures hit.None? ==> r == None && order == old(order)
      ensures hit.Some? ==> hit.value in entries && r == Some(entries[hit.value].results)
                            && order == Used(old(order), hit.value)
    {
      var key := normalize(query);
      if key == [] {
        return None, None;
      }
      if key in entries && now - entries[key].createdAt < ttl {
        MoveToEnd(key);
        return Some(entries[key].results), Some(key);
      }
      var best, sim := MostSimilar(key, now);
      if sim >= THRESHOLD && best.Some? {
        MoveToEnd(entries[best.value].query);
        return Some(entries[best.value].results), best;
      }
      return None, None;
    }

    /** Drops the expired entries. */
    method EvictExpired(now: int)
      requires Valid()
      modifies this
      ensures Valid() && order == Unexpired(old(entries), old(order), ttl, now) && Part(entries, old(entries))
      ensures forall k :: k in entries <==> Live(old(entries), k, ttl, now)
    {
      ghost var all := entries;
      var newOrder: seq<Text> := [];
      for i := 0 to |order|
        invariant order == old(order) && newOrder == Unexpired(all, order[..i], ttl, now)
        invariant entries == Purged(all, order[..i], ttl, now)
      {
        var key := order[i];
        PurgedNext(all, order, i, ttl, now);
        if key !in entries || now - entries[key].createdAt >= ttl {
          entries := entries - {key};
        } else {
          newOrder := newOrder + [key];
        }
      }
      assert order[..|order|] == order;
      PurgedRanks(all, order, ttl, now);
      order := newOrder;
    }

    method DropFirst()
      requires Ranks(order, entries) && order != []
      modifies this
      ensures order == old(order)[1..] && entries == old(entries) - {old(order)[0]}
      ensures Ranks(order, entries) && |order| == |entries|
    {
      WithoutFirst(order, entries);
      var oldest := order[0];
      order := order[1..];
      entries := entries - {oldest};
      RanksSize(order, entries);
    }

    /** Drops the least recently used entries until one more fits. */
    method EvictOldest()
      requires maxEntries > 0 && Ranks(order, entries)
      modifies this
      ensures Ranks(order, entries) && order == Newest(old(order), maxEntries - 1)
      ensures Part(entries, old(entries))
    {
      RanksSize(order, entries);
      while |entries| >= maxEntries && |order| > 0
        invariant |order| == |entries| && Ranks(order, entries) && Part(entries, old(entries))
        invariant Newest(order, maxEntries - 1) == Newest(old(order), maxEntries - 1)
        decreases |order|
      {
        DropFirst();
      }
    }

    /** Overwrites the entry of a key. */
    method Refresh(key: Text, results: R, now: int)
      requires Valid() && key in entries
      modifies this
      ensures Valid() && order == Used(old(order), key) && key in entries
      ensures Stored(entries, old(entries), key, results, now)
    {
      var trigrams := BuildTrigrams(key);
      entries := entries[key := Entry(key, trigrams, results, now)];
      MoveToEnd(key);
    }

    method Insert(key: Text, results: R, now: int)
      requires Valid() && key !in entries
      modifies this
      ensures Valid() && order == Newest(old(order), maxEntries - 1) + [key] && key in entries
      ensures Stored(entries, old(entries), key, results, now)
    {
      EvictOldest();
      var trigrams := BuildTrigrams(key);
      entries := entries[key := Entry(key, trigrams, results, now)];
      DistinctWith(order, key);
      order := order + [key];
    }

    /** Without the expired entries, the query becomes the most recently used one; of the
        others the newest stay, as many as fit. */
    method Put(query: Text, results: R, now: int)
      requires Valid()
      modifies this
      ensures Valid()
      ensures normalize(query) == [] ==> order == old(order) && entries == old(entries)
      ensures normalize(query) != [] ==>
        var key := normalize(query);
        && order == Newest(Without(Unexpired(old(entries), old(order), ttl, now), key), maxEntries - 1) + [key]
        && key in entries && Stored(entries, old(entries), key, results, now)
    {
      var key := normalize(query);
      if key == [] {
        return;
      }
      EvictExpired(now);
      if key in entries {
        WithoutHas(order, key);
        Refresh(key, results, now);
      } else {
        WithoutMissing(order, key);
        Insert(key, results, now);
      }
    }
  }

  lemma {:induction false} WithoutMissing(order: seq<Text>, key: Text)
    requires key !in order
    ensures Without(order, key) == order
  {
    if order != [] {
      WithoutMissing(order[1..], key);
    }
  }

  // ---------------------------------------------------------------- queries too short for trigrams

  /** A query of fewer than three bytes is as similar as can be to exactly the other such
      queries, whatever they say. */
  lemma ShortQueriesCollide(a: Text, b: Text)
    requires |a| < 3
    ensures Sim(a, b) == 1.0 <==> |b| < 3
  {
    SimilarityLaws(Grams(a), Grams(b));
    if |b| < 3 {
      assert Grams(a) == Grams(b);
    } else {
      assert Gram(b, 0) in Grams(b);
    }
  }

  /** So any live short entry makes every short query a hit, on a short entry. */
  lemma ShortQueriesHit<R>(m: Entries<R>, key: Text, other: Text, k: Text, ttl: int, now: int)
    requires |key| < 3 && |other| < 3 && Live(m, other, ttl, now)
    ensures Best(m, key, other, ttl, now)
    ensures Best(m, key, k, ttl, now) ==> |k| < 3
  {
    ShortQueriesCollide(key, other);
    ShortQueriesCollide(key, k);
    forall j | Live(m, j, ttl, now) ensures Sim(key, j) <= 1.0 {
      SimilarityLaws(Grams(key), Grams(j));
    }
    SimilarityLaws(Grams(key), Grams(k));
  }
}
