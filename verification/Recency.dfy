/** The plain recency list that the caches are to behave as, and what it promises over every
    run: the newest value, eviction of the least recently used key, and how long a key
    survives. */
module Recency {
  import opened Common

  /** Entries, most recently used first. */
  type Entries<K, V> = seq<(K, V)>

  ghost predicate HasKey<K, V>(l: Entries<K, V>, k: K) {
    exists i :: 0 <= i < |l| && l[i].0 == k
  }

  ghost predicate DistinctKeys<K, V>(l: Entries<K, V>) {
    forall i, j :: 0 <= i < j < |l| ==> l[i].0 != l[j].0
  }

  /** The list without its first entry for k. */
  function Without<K(==), V>(l: Entries<K, V>, k: K): (r: Entries<K, V>)
    ensures |r| <= |l|
  {
    if l == [] then [] else if l[0].0 == k then l[1..] else [l[0]] + Without(l[1..], k)
  }

  function Lookup<K(==), V>(l: Entries<K, V>, k: K): Option<V> {
    if l == [] then None else if l[0].0 == k then Some(l[0].1) else Lookup(l[1..], k)
  }

  function Got<K(==), V>(l: Entries<K, V>, k: K): Entries<K, V> {
    match Lookup(l, k)
    case None => l
    case Some(v) => [(k, v)] + Without(l, k)
  }

  /** A full list gives up its last entry. */
  function Evicted<K, V>(capacity: int, l: Entries<K, V>): Entries<K, V> {
    if |l| >= capacity && |l| > 0 then l[..|l| - 1] else l
  }

  function Put<K(==), V>(capacity: int, l: Entries<K, V>, k: K, v: V): Entries<K, V> {
    [(k, v)] + (if Lookup(l, k).Some? then Without(l, k) else Evicted(capacity, l))
  }

  datatype Op<K, V> = OpGet(k: K) | OpPut(k: K, v: V) | OpDelete(k: K) | OpClear

  function Step<K(==), V>(capacity: int, l: Entries<K, V>, op: Op<K, V>): Entries<K, V> {
    match op
    case OpGet(k) => Got(l, k)
    case OpPut(k, v) => Put(capacity, l, k, v)
    case OpDelete(k) => Without(l, k)
    case OpClear => []
  }

  /** The list after the operations, from an empty one. */
  function Run<K(==), V>(capacity: int, ops: seq<Op<K, V>>): Entries<K, V> {
    if ops == [] then [] else Step(capacity, Run(capacity, ops[..|ops| - 1]), ops[|ops| - 1])
  }

  // ---------------------------------------------------------------- the list

  /** Taking out the entry of a key: everything else stays, in order. */
  lemma {:induction false} WithoutAt<K, V>(l: Entries<K, V>, k: K, i: nat)
    requires DistinctKeys(l) && i < |l| && l[i].0 == k
    ensures Without(l, k) == l[..i] + l[i + 1..]
    ensures Lookup(l, k) == Some(l[i].1)
  {
    if i > 0 {
      WithoutAt(l[1..], k, i - 1);
      assert l[1..][..i - 1] == l[1..i] && l[1..][i..] == l[i + 1..];
      assert [l[0]] + l[1..i] == l[..i];
    }
  }

  lemma {:induction false} WithoutMissing<K, V>(l: Entries<K, V>, k: K)
    requires !HasKey(l, k)
    ensures Without(l, k) == l && Lookup(l, k) == None
  {
    if l != [] {
      assert l[0].0 != k;
      assert forall i :: 0 <= i < |l[1..]| ==> l[1..][i] == l[i + 1];
      WithoutMissing(l[1..], k);
    }
  }

  /** Where a key is. */
  lemma Find<K, V>(l: Entries<K, V>, k: K) returns (i: nat)
    requires DistinctKeys(l)
    ensures i <= |l|
    ensures i < |l| ==> l[i].0 == k && Without(l, k) == l[..i] + l[i + 1..] && Lookup(l, k) == Some(l[i].1)
    ensures i == |l| ==> !HasKey(l, k) && Without(l, k) == l && Lookup(l, k) == None
  {
    if HasKey(l, k) {
      i :| 0 <= i < |l| && l[i].0 == k;
      WithoutAt(l, k, i);
    } else {
      i := |l|;
      WithoutMissing(l, k);
    }
  }

  function Cap(capacity: int): nat { if capacity < 1 then 1 else capacity }

  /** The list without its entry at position c; the list itself when there is none. */
  function Drop<K, V>(l: Entries<K, V>, c: nat): (r: Entries<K, V>)
    requires c <= |l|
    ensures |r| == if c < |l| then |l| - 1 else |l|
  {
    if c < |l| then l[..c] + l[c + 1..] else l
  }

  /** Where the entry at position j was before position c was dropped, and where it went. */
  function Was(c: nat, j: nat): nat { if j < c then j else j + 1 }

  function Goes(c: nat, j: nat): nat
    requires j != c
  {
    if j < c then j else j - 1
  }

  lemma AtWas<K, V>(l: Entries<K, V>, c: nat, head: Entries<K, V>, i: nat)
    requires c <= |l| && |head| <= i < |head + Drop(l, c)|
    ensures Was(c, i - |head|) < |l| && (head + Drop(l, c))[i] == l[Was(c, i - |head|)]
  {
  }

  lemma AtGoes<K, V>(l: Entries<K, V>, c: nat, head: Entries<K, V>, j: nat)
    requires c <= |l| && j < |l| && j != c
    ensures |head| + Goes(c, j) < |head + Drop(l, c)| && (head + Drop(l, c))[|head| + Goes(c, j)] == l[j]
  {
  }

  /** An operation on a key that is at position `at`. */
  lemma FoundForm<K, V>(capacity: int, l: Entries<K, V>, op: Op<K, V>, at: nat)
    requires !op.OpClear? && at < |l| && l[at].0 == op.k
    requires Without(l, op.k) == Drop(l, at) && Lookup(l, op.k) == Some(l[at].1)
    ensures Step(capacity, l, op) ==
            (if op.OpDelete? then [] else [(op.k, if op.OpPut? then op.v else l[at].1)]) + Drop(l, at)
  {
  }

  /** Where a put of a new key makes room. */
  function Room<K, V>(capacity: int, l: Entries<K, V>): (c: nat)
    ensures c <= |l|
  {
    if |l| >= capacity && |l| > 0 then |l| - 1 else |l|
  }

  lemma EvictedDrop<K, V>(capacity: int, l: Entries<K, V>)
    ensures Evicted(capacity, l) == Drop(l, Room(capacity, l))
  {
    if |l| >= capacity && |l| > 0 {
      assert l[|l|..] == [];
      assert l[..|l| - 1] + [] == l[..|l| - 1];
    }
  }

  lemma NothingBefore<T>(s: seq<T>)
    ensures [] + s == s
  {
  }

  /** An operation on a key that is not in the list. */
  lemma MissingForm<K, V>(capacity: int, l: Entries<K, V>, op: Op<K, V>)
    requires !op.OpClear? && Without(l, op.k) == l && Lookup(l, op.k) == None
    ensures op.OpPut? ==> Step(capacity, l, op) == [(op.k, op.v)] + Drop(l, Room(capacity, l))
    ensures !op.OpPut? ==> Step(capacity, l, op) == [] + Drop(l, |l|)
  {
    EvictedDrop(capacity, l);
    NothingBefore(l);
  }

  /** Every operation on a key drops at most one entry and puts at most one in front, and no
      entry of the key is among the rest. */
  lemma StepForm<K, V>(capacity: int, l: Entries<K, V>, op: Op<K, V>) returns (head: Entries<K, V>, c: nat)
    requires DistinctKeys(l) && !op.OpClear?
    ensures c <= |l| && Step(capacity, l, op) == head + Drop(l, c)
    ensures forall j :: 0 <= j < |l| && j != c ==> l[j].0 != op.k
    ensures |head| <= 1
    ensures head != [] ==> head[0].0 == op.k
    ensures head == [] ==> op.OpDelete? || (op.OpGet? && c == |l|)
    ensures op.OpDelete? ==> head == []
    ensures op.OpPut? ==> head == [(op.k, op.v)]
    ensures op.OpGet? && head != [] ==> c < |l| && head == [l[c]]
    ensures c < |l| && l[c].0 != op.k ==> op.OpPut? && c == |l| - 1 && |l| >= capacity
    ensures op.OpPut? && c == |l| ==> |l| < capacity || l == []
  {
    var at := Find(l, op.k);
    if at < |l| {
      c := at;
      head := if op.OpDelete? then [] else [(op.k, if op.OpPut? then op.v else l[at].1)];
      FoundForm(capacity, l, op, at);
    } else {
      c := if op.OpPut? then Room(capacity, l) else |l|;
      head := if op.OpPut? then [(op.k, op.v)] else [];
      MissingForm(capacity, l, op);
    }
  }

  lemma StepDistinct<K, V>(capacity: int, l: Entries<K, V>, op: Op<K, V>)
    requires DistinctKeys(l)
    ensures DistinctKeys(Step(capacity, l, op))
  {
    if op.OpClear? { return; }
    var head, c := StepForm(capacity, l, op);
    FormDistinct(l, c, head, op.k);
  }

  lemma FormDistinct<K, V>(l: Entries<K, V>, c: nat, head: Entries<K, V>, k: K)
    requires DistinctKeys(l) && c <= |l| && |head| <= 1 && (head != [] ==> head[0].0 == k)
    requires forall j :: 0 <= j < |l| && j != c ==> l[j].0 != k
    ensures DistinctKeys(head + Drop(l, c))
  {
    var l' := head + Drop(l, c);
    forall i, j | 0 <= i < j < |l'| ensures l'[i].0 != l'[j].0 {
      AtWas(l, c, head, j);
      if i >= |head| { AtWas(l, c, head, i); }
    }
  }

  /** The list never holds two entries for one key or more than its capacity; a capacity
      below one holds one entry, as a capacity of one does. */
  lemma {:induction false} RunBounded<K, V>(capacity: int, ops: seq<Op<K, V>>)
    ensures DistinctKeys(Run(capacity, ops)) && |Run(capacity, ops)| <= Cap(capacity)
    ensures Run(capacity, ops) == Run(Cap(capacity), ops)
  {
    if ops != [] {
      var n := |ops| - 1;
      RunBounded(capacity, ops[..n]);
      StepDistinct(capacity, Run(capacity, ops[..n]), ops[n]);
      if !ops[n].OpClear? {
        var i := Find(Run(capacity, ops[..n]), ops[n].k);
      }
    }
  }

  // ---------------------------------------------------------------- values

  /** What was last put under a key and neither deleted nor cleared since. */
  function LastPut<K(==), V>(ops: seq<Op<K, V>>, k: K): Option<V> {
    if ops == [] then None
    else
      match ops[|ops| - 1]
      case OpPut(j, v) => if j == k then Some(v) else LastPut(ops[..|ops| - 1], k)
      case OpDelete(j) => if j == k then None else LastPut(ops[..|ops| - 1], k)
      case OpGet(_) => LastPut(ops[..|ops| - 1], k)
      case OpClear => None
  }

  /** Every entry a run leaves holds the value last put under its key. */
  lemma {:induction false} HoldsLastPut<K, V>(capacity: int, ops: seq<Op<K, V>>, i: nat)
    requires i < |Run(capacity, ops)|
    ensures LastPut(ops, Run(capacity, ops)[i].0) == Some(Run(capacity, ops)[i].1)
  {
    var n := |ops| - 1;
    var before := Run(capacity, ops[..n]);
    if ops[n].OpClear? { return; }
    RunBounded(capacity, ops[..n]);
    var head, c := StepForm(capacity, before, ops[n]);
    if i < |head| {
      if ops[n].OpGet? {
        HoldsLastPut(capacity, ops[..n], c);
      }
    } else {
      AtWas(before, c, head, i);
      HoldsLastPut(capacity, ops[..n], Was(c, i - |head|));
    }
  }

  // ---------------------------------------------------------------- recency

  predicate Uses<K(==), V>(op: Op<K, V>, k: K) { (op.OpGet? || op.OpPut?) && op.k == k }

  /** One more than the position of the last operation that got or put the key; 0 if none. */
  function LastUse<K(==), V>(ops: seq<Op<K, V>>, k: K): (n: nat)
    ensures n <= |ops|
  {
    if ops == [] then 0
    else if Uses(ops[|ops| - 1], k) then |ops|
    else LastUse(ops[..|ops| - 1], k)
  }

  ghost predicate ByLastUse<K, V>(ops: seq<Op<K, V>>, l: Entries<K, V>) {
    forall i, j :: 0 <= i < j < |l| ==> LastUse(ops, l[i].0) > LastUse(ops, l[j].0)
  }

  lemma UseStep<K, V>(ops: seq<Op<K, V>>, op: Op<K, V>, k: K)
    ensures LastUse(ops + [op], k) == if Uses(op, k) then |ops| + 1 else LastUse(ops, k)
  {
    assert (ops + [op])[..|ops|] == ops;
  }

  lemma OrderPair<K, V>(ops: seq<Op<K, V>>, op: Op<K, V>, l: Entries<K, V>, head: Entries<K, V>, c: nat, i: nat, j: nat)
    requires ByLastUse(ops, l) && c <= |l| && i < j < |head + Drop(l, c)|
    requires !op.OpClear? && |head| <= 1 && (head != [] ==> Uses(op, head[0].0))
    requires forall m :: 0 <= m < |l| && m != c ==> l[m].0 != op.k
    ensures var l' := head + Drop(l, c); LastUse(ops + [op], l'[i].0) > LastUse(ops + [op], l'[j].0)
  {
    var l' := head + Drop(l, c);
    UseStep(ops, op, l'[i].0);
    UseStep(ops, op, l'[j].0);
    AtWas(l, c, head, j);
    if i >= |head| { AtWas(l, c, head, i); }
  }

  /** The list is in the order of the last uses, latest first. */
  lemma {:induction false} OrderedByUse<K, V>(capacity: int, ops: seq<Op<K, V>>)
    ensures ByLastUse(ops, Run(capacity, ops))
  {
    if ops != [] {
      var n := |ops| - 1;
      var before := Run(capacity, ops[..n]);
      if ops[n].OpClear? { return; }
      OrderedByUse(capacity, ops[..n]);
      RunBounded(capacity, ops[..n]);
      var head, c := StepForm(capacity, before, ops[n]);
      assert ops == ops[..n] + [ops[n]];
      forall i, j | 0 <= i < j < |head + Drop(before, c)|
        ensures LastUse(ops, (head + Drop(before, c))[i].0) > LastUse(ops, (head + Drop(before, c))[j].0)
      {
        OrderPair(ops[..n], ops[n], before, head, c, i, j);
      }
    }
  }

  /** A put of a new key on a full list drops exactly the key whose last use lies furthest
      back. */
  lemma EvictsLeastRecentlyUsed<K, V>(capacity: int, ops: seq<Op<K, V>>, k: K, v: V)
    requires var l := Run(capacity, ops); !HasKey(l, k) && |l| == Cap(capacity)
    ensures var l := Run(capacity, ops);
            var l' := Run(capacity, ops + [OpPut(k, v)]);
            && l' == [(k, v)] + l[..|l| - 1]
            && !HasKey(l', l[|l| - 1].0)
            && forall i :: 0 <= i < |l| - 1 ==> LastUse(ops, l[i].0) > LastUse(ops, l[|l| - 1].0)
  {
    RunBounded(capacity, ops);
    OrderedByUse(capacity, ops);
    PutOnFull(capacity, Run(capacity, ops), k, v);
    RunPut(capacity, ops, k, v);
  }

  lemma RunPut<K, V>(capacity: int, ops: seq<Op<K, V>>, k: K, v: V)
    ensures Run(capacity, ops + [OpPut(k, v)]) == Put(capacity, Run(capacity, ops), k, v)
  {
    assert (ops + [OpPut(k, v)])[..|ops|] == ops;
  }

  lemma PutOnFull<K, V>(capacity: int, l: Entries<K, V>, k: K, v: V)
    requires !HasKey(l, k) && DistinctKeys(l) && |l| == Cap(capacity)
    ensures Put(capacity, l, k, v) == [(k, v)] + l[..|l| - 1]
    ensures !HasKey(Put(capacity, l, k, v), l[|l| - 1].0)
  {
    WithoutMissing(l, k);
  }

  // ---------------------------------------------------------------- survival

  /** The keys other than k that the operations use. */
  ghost function UsedKeys<K, V>(ops: seq<Op<K, V>>, k: K): set<K> {
    set op | op in ops && (op.OpGet? || op.OpPut?) && op.k != k :: op.k
  }

  ghost predicate NoDelete<K, V>(ops: seq<Op<K, V>>, k: K) {
    forall op :: op in ops ==> !op.OpClear? && !(op.OpDelete? && op.k == k)
  }

  /** Only the given keys are in front of position i. */
  ghost predicate OnlyInFront<K, V>(l: Entries<K, V>, i: nat, keys: set<K>)
    requires i <= |l|
  {
    forall j :: 0 <= j < i ==> l[j].0 in keys
  }

  /** All the given keys are in front of position i. */
  ghost predicate AllInFront<K, V>(l: Entries<K, V>, i: nat, keys: set<K>)
    requires i <= |l|
  {
    forall x :: x in keys ==> exists j :: 0 <= j < i && l[j].0 == x
  }

  lemma {:induction false} OnlyCount<K, V>(l: Entries<K, V>, i: nat, keys: set<K>)
    requires i <= |l| && DistinctKeys(l) && OnlyInFront(l, i, keys)
    ensures i <= |keys|
  {
    if i > 0 {
      OnlyCount(l, i - 1, keys - {l[i - 1].0});
    }
  }

  lemma {:induction false} AllCount<K, V>(l: Entries<K, V>, i: nat, keys: set<K>)
    requires i <= |l| && AllInFront(l, i, keys)
    ensures |keys| <= i
  {
    if i > 0 {
      AllCount(l, i - 1, keys - {l[i - 1].0});
    } else {
      assert forall x :: x !in keys;
      assert keys == {};
    }
  }

  /** A full list cannot lose its last key to a new one when only few keys were used since. */
  lemma LastStays<K, V>(l: Entries<K, V>, i: nat, newKey: K, used: set<K>)
    requires DistinctKeys(l) && i <= |l| && OnlyInFront(l, i, used)
    requires forall j :: 0 <= j < i ==> l[j].0 != newKey
    ensures i < |used + {newKey}|
  {
    OnlyCount(l, i, used - {newKey});
    assert used + {newKey} == (used - {newKey}) + {newKey};
  }

  lemma Smaller<T>(a: set<T>, b: set<T>)
    requires a <= b
    ensures |a| <= |b|
  {
    assert b == a + (b - a);
  }

  function UsedKey<K(==), V>(op: Op<K, V>, k: K): set<K> {
    if (op.OpGet? || op.OpPut?) && op.k != k then {op.k} else {}
  }

  function PutKey<K(==), V>(op: Op<K, V>, k: K): set<K> {
    if op.OpPut? && op.k != k then {op.k} else {}
  }

  /** One step of a key's survival: in front of it there are only keys used since. */
  lemma SurvivesStep<K, V>(capacity: int, l: Entries<K, V>, op: Op<K, V>, k: K, i: nat, used: set<K>) returns (i': nat)
    requires DistinctKeys(l) && |l| <= Cap(capacity) && i < |l| && l[i].0 == k && OnlyInFront(l, i, used)
    requires !op.OpClear? && !(op.OpDelete? && op.k == k)
    requires |used + UsedKey(op, k)| < Cap(capacity)
    ensures var l' := Step(capacity, l, op);
            i' < |l'| && l'[i'].0 == k && OnlyInFront(l', i', used + UsedKey(op, k))
  {
    var head, c := StepForm(capacity, l, op);
    if c == i {
      NotLast(capacity, l, op, k, i, used);
      i' := 0;
    } else {
      assert head != [] ==> !op.OpDelete? && op.k != k;
      MovesBack(l, head, c, i, k, used, UsedKey(op, k));
      i' := |head| + Goes(c, i);
    }
  }

  /** An operation on another key does not drop the key: at the end of a full list it would
      have more keys in front of it than were used. */
  lemma NotLast<K, V>(capacity: int, l: Entries<K, V>, op: Op<K, V>, k: K, i: nat, used: set<K>)
    requires DistinctKeys(l) && |l| <= Cap(capacity) && i < |l| && l[i].0 == k && OnlyInFront(l, i, used)
    requires !op.OpClear? && (forall j :: 0 <= j < |l| && j != i ==> l[j].0 != op.k)
    requires op.k != k ==> op.OpPut? && i == |l| - 1 && |l| >= capacity
    requires |used + UsedKey(op, k)| < Cap(capacity)
    ensures op.k == k
  {
    if op.k != k {
      LastStays(l, i, op.k, used);
    }
  }

  lemma MovesBack<K, V>(l: Entries<K, V>, head: Entries<K, V>, c: nat, i: nat, k: K, used: set<K>, more: set<K>)
    requires c <= |l| && i < |l| && i != c && l[i].0 == k && OnlyInFront(l, i, used)
    requires |head| <= 1 && (head != [] ==> head[0].0 in more)
    ensures var l', i' := head + Drop(l, c), |head| + Goes(c, i);
            i' < |l'| && l'[i'].0 == k && OnlyInFront(l', i', used + more)
  {
    AtGoes(l, c, head, i);
    OnlyStays(l, head, c, i, used);
  }

  lemma OnlyStays<K, V>(l: Entries<K, V>, head: Entries<K, V>, c: nat, i: nat, used: set<K>)
    requires c <= |l| && i < |l| && i != c && OnlyInFront(l, i, used)
    ensures |head| + Goes(c, i) <= |head + Drop(l, c)|
    ensures forall j :: |head| <= j < |head| + Goes(c, i) ==> (head + Drop(l, c))[j].0 in used
  {
    AtGoes(l, c, head, i);
    forall j | |head| <= j < |head| + Goes(c, i) ensures (head + Drop(l, c))[j].0 in used {
      AtWas(l, c, head, j);
    }
  }

  /** A key that was just used is still there after any operations that neither delete it nor
      clear the list and that use fewer than `capacity` other keys. */
  lemma {:induction false} Survives<K, V>(capacity: int, before: seq<Op<K, V>>, after: seq<Op<K, V>>, k: K)
      returns (i: nat)
    requires var l := Run(capacity, before); l != [] && l[0].0 == k
    requires NoDelete(after, k) && |UsedKeys(after, k)| < Cap(capacity)
    ensures var l := Run(capacity, before + after);
            i < |l| && l[i].0 == k && OnlyInFront(l, i, UsedKeys(after, k))
  {
    if after == [] {
      assert before + after == before;
      i := 0;
    } else {
      var n := |after| - 1;
      var front := after[..n];
      assert after == front + [after[n]];
      assert (before + after)[..|before + after| - 1] == before + front;
      assert UsedKeys(after, k) == UsedKeys(front, k) + UsedKey(after[n], k);
      Smaller(UsedKeys(front, k), UsedKeys(after, k));
      var i0 := Survives(capacity, before, front, k);
      RunBounded(capacity, before + front);
      i := SurvivesStep(capacity, Run(capacity, before + front), after[n], k, i0, UsedKeys(front, k));
    }
  }

  /** The keys other than k that the operations put. */
  ghost function PutKeys<K, V>(ops: seq<Op<K, V>>, k: K): set<K> {
    set op | op in ops && op.OpPut? && op.k != k :: op.k
  }

  ghost predicate BehindAll<K, V>(l: Entries<K, V>, k: K, keys: set<K>) {
    forall i :: 0 <= i < |l| && l[i].0 == k ==> AllInFront(l, i, keys)
  }

  lemma PushedOutStep<K, V>(capacity: int, l: Entries<K, V>, op: Op<K, V>, k: K, put: set<K>)
    requires DistinctKeys(l) && !op.OpDelete? && (op.OpClear? || op.k != k) && BehindAll(l, k, put)
    ensures BehindAll(Step(capacity, l, op), k, put + PutKey(op, k))
  {
    if op.OpClear? { return; }
    var head, c := StepForm(capacity, l, op);
    var l' := Step(capacity, l, op);
    forall i, x | 0 <= i < |l'| && l'[i].0 == k && x in put + PutKey(op, k)
      ensures exists j :: 0 <= j < i && l'[j].0 == x
    {
      AtWas(l, c, head, i);
      if x == op.k && op.OpPut? {
        assert l'[0].0 == x;
      } else {
        StillInFront(l, head, c, put, x, i);
      }
    }
  }

  lemma StillInFront<K, V>(l: Entries<K, V>, head: Entries<K, V>, c: nat, put: set<K>, x: K, i: nat)
    requires c <= |l| && |head| <= i < |head + Drop(l, c)| && x in put
    requires AllInFront(l, Was(c, i - |head|), put)
    requires c < Was(c, i - |head|) ==> head != [] && head[0].0 == l[c].0
    ensures exists j :: 0 <= j < i && (head + Drop(l, c))[j].0 == x
  {
    var j :| 0 <= j < Was(c, i - |head|) && l[j].0 == x;
    if j == c {
      assert (head + Drop(l, c))[0].0 == x;
    } else {
      AtGoes(l, c, head, j);
    }
  }

  /** A key that the operations do not use is gone once they put `capacity` other keys and
      delete no single one. */
  lemma {:induction false} PushedOut<K, V>(capacity: int, before: seq<Op<K, V>>, after: seq<Op<K, V>>, k: K)
    requires forall op :: op in after ==> !op.OpDelete? && (op.OpClear? || op.k != k)
    ensures BehindAll(Run(capacity, before + after), k, PutKeys(after, k))
    ensures |PutKeys(after, k)| >= Cap(capacity) ==> !HasKey(Run(capacity, before + after), k)
  {
    if after != [] {
      var n := |after| - 1;
      var front := after[..n];
      assert after == front + [after[n]];
      assert (before + after)[..|before + after| - 1] == before + front;
      PushedOut(capacity, before, front, k);
      RunBounded(capacity, before + front);
      PushedOutStep(capacity, Run(capacity, before + front), after[n], k, PutKeys(front, k));
      assert PutKeys(after, k) == PutKeys(front, k) + PutKey(after[n], k);
    }
    var l := Run(capacity, before + after);
    RunBounded(capacity, before + after);
    forall i | 0 <= i < |l| && l[i].0 == k ensures |PutKeys(after, k)| < Cap(capacity) {
      AllCount(l, i, PutKeys(after, k));
    }
  }
}
