/** Sets of trigrams as strictly increasing lists, and their similarity. */
module Trigrams {
  import opened Bytes

  // ---------------------------------------------------------------- increasing lists are sets

  ghost predicate Increasing(s: seq<int>) { forall i, j :: 0 <= i < j < |s| ==> s[i] < s[j] }

  ghost predicate NonDecreasing(s: seq<int>) { forall i, j :: 0 <= i < j < |s| ==> s[i] <= s[j] }

  function Elems(s: seq<int>): set<int> { set x | x in s }

  lemma {:induction false} Size(s: seq<int>)
    requires Increasing(s)
    ensures |Elems(s)| == |s|
  {
    if s != [] {
      var front, last := s[..|s| - 1], s[|s| - 1];
      Size(front);
      ElemsNext(front, last);
      assert front + [last] == s;
      assert forall i :: 0 <= i < |front| ==> front[i] < last;
      assert last !in Elems(front);
    }
  }

  lemma ElemsNext(s: seq<int>, x: int)
    ensures Elems(s + [x]) == Elems(s) + {x}
  {
  }

  /** A set has one increasing list. */
  lemma {:induction false} OneList(a: seq<int>, b: seq<int>)
    requires Increasing(a) && Increasing(b) && Elems(a) == Elems(b)
    ensures a == b
  {
    Size(a);
    Size(b);
    if a != [] {
      var n := |a| - 1;
      assert a[n] in Elems(b) && b[n] in Elems(a);
      assert a[n] == b[n];
      assert Elems(a[..n]) == Elems(a) - {a[n]} && Elems(b[..n]) == Elems(b) - {b[n]};
      OneList(a[..n], b[..n]);
      assert a[..n] + [a[n]] == a && b[..n] + [b[n]] == b;
    }
  }

  // ---------------------------------------------------------------- building

  function Gram(s: Text, i: nat): int
    requires i + 2 < |s|
  {
    65536 * (s[i] as int) + 256 * (s[i + 1] as int) + (s[i + 2] as int)
  }

  /** A gram tells its three bytes. */
  lemma GramTells(s: Text, i: nat, t: Text, j: nat)
    requires i + 2 < |s| && j + 2 < |t|
    ensures Gram(s, i) == Gram(t, j) <==> s[i..i + 3] == t[j..j + 3]
    ensures 0 <= Gram(s, i) < 0x1_0000_0000
  {
    if Gram(s, i) == Gram(t, j) {
      assert s[i] == t[j] && s[i + 1] == t[j + 1] && s[i + 2] == t[j + 2];
    }
    var a, b := s[i..i + 3], t[j..j + 3];
    assert a[0] == s[i] && a[1] == s[i + 1] && a[2] == s[i + 2];
    assert b[0] == t[j] && b[1] == t[j + 1] && b[2] == t[j + 2];
  }

  function GramList(s: Text, n: nat): (r: seq<int>)
    requires n == 0 || n + 2 <= |s|
    ensures |r| == n
  {
    if n == 0 then [] else GramList(s, n - 1) + [Gram(s, n - 1)]
  }

  /** The trigrams of a text. */
  ghost function Grams(s: Text): set<int> {
    set i: nat | i + 2 < |s| :: Gram(s, i)
  }

  lemma {:induction false} GramListHas(s: Text, n: nat)
    requires n == 0 || n + 2 <= |s|
    ensures Elems(GramList(s, n)) == set i: nat | i < n :: Gram(s, i)
  {
    if n > 0 {
      GramListHas(s, n - 1);
      ElemsNext(GramList(s, n - 1), Gram(s, n - 1));
    }
  }

  /** The list is what the text's entry in the cache is to hold. */
  ghost predicate IsTrigrams(t: seq<int>, s: Text) { Increasing(t) && Elems(t) == Grams(s) }

  function Insert(s: seq<int>, x: int): (r: seq<int>)
    ensures |r| == |s| + 1
  {
    if s == [] || s[|s| - 1] <= x then s + [x] else Insert(s[..|s| - 1], x) + [s[|s| - 1]]
  }

  /** What sorting gives. */
  function Sorted(s: seq<int>): (r: seq<int>)
    ensures |r| == |s|
  {
    if s == [] then [] else Insert(Sorted(s[..|s| - 1]), s[|s| - 1])
  }

  lemma {:induction false} InsertHas(s: seq<int>, x: int)
    ensures Elems(Insert(s, x)) == Elems(s) + {x}
  {
    if s == [] || s[|s| - 1] <= x {
      ElemsNext(s, x);
    } else {
      var front, last := s[..|s| - 1], s[|s| - 1];
      InsertHas(front, x);
      ElemsNext(Insert(front, x), last);
      ElemsNext(front, last);
      assert front + [last] == s;
    }
  }

  lemma {:induction false} InsertSorts(s: seq<int>, x: int)
    requires NonDecreasing(s)
    ensures NonDecreasing(Insert(s, x))
  {
    if s != [] && s[|s| - 1] > x {
      var front, last := s[..|s| - 1], s[|s| - 1];
      InsertSorts(front, x);
      InsertHas(front, x);
      var r := Insert(front, x);
      assert forall i :: 0 <= i < |r| ==> r[i] in Elems(front) + {x};
      assert forall y :: y in Elems(front) + {x} ==> y <= last;
    }
  }

  lemma {:induction false} Sorts(s: seq<int>)
    ensures NonDecreasing(Sorted(s)) && Elems(Sorted(s)) == Elems(s)
  {
    if s != [] {
      var front, last := s[..|s| - 1], s[|s| - 1];
      Sorts(front);
      InsertSorts(Sorted(front), last);
      InsertHas(Sorted(front), last);
      ElemsNext(front, last);
      assert front + [last] == s;
    }
  }

  /** Without repeated neighbours. */
  function Unique(s: seq<int>): (r: seq<int>)
    ensures |r| <= |s| && (s != [] ==> r != [] && r[|r| - 1] == s[|s| - 1])
  {
    if s == [] then []
    else
      var front, last := s[..|s| - 1], s[|s| - 1];
      if front != [] && front[|front| - 1] == last then Unique(front) else Unique(front) + [last]
  }

  lemma {:induction false} UniqueHas(s: seq<int>)
    ensures Elems(Unique(s)) == Elems(s)
  {
    if s != [] {
      var front, last := s[..|s| - 1], s[|s| - 1];
      UniqueHas(front);
      ElemsNext(front, last);
      ElemsNext(Unique(front), last);
      assert front + [last] == s;
      if front != [] && front[|front| - 1] == last {
        assert last in Elems(front);
      }
    }
  }

  /** Of a sorted list the set remains, each element once. */
  lemma {:induction false} UniqueIsSet(s: seq<int>)
    requires NonDecreasing(s)
    ensures Increasing(Unique(s)) && Elems(Unique(s)) == Elems(s)
  {
    UniqueHas(s);
    if s != [] {
      var front, last := s[..|s| - 1], s[|s| - 1];
      UniqueIsSet(front);
      if front == [] || front[|front| - 1] != last {
        AboveAll(Unique(front), front, last);
      }
    }
  }

  lemma AboveAll(u: seq<int>, s: seq<int>, x: int)
    requires Increasing(u) && NonDecreasing(s) && (s != [] ==> s[|s| - 1] < x)
    requires Elems(u) == Elems(s)
    ensures Increasing(u + [x])
  {
    forall i | 0 <= i < |u| ensures u[i] < x {
      assert u[i] in Elems(s);
    }
  }

  /** Drops repeated neighbours in place; the first `n` cells are the result. */
  method Dedup(a: array<int>) returns (n: nat)
    modifies a
    ensures n <= a.Length && a[..n] == Unique(old(a[..]))
  {
    if a.Length == 0 {
      return 0;
    }
    ghost var was := a[..];
    n := 1;
    assert was[..1][..0] == [];
    var i := 1;
    while i < a.Length
      invariant 1 <= n <= i <= a.Length && forall k :: i - 1 <= k < a.Length ==> a[k] == was[k]
      invariant a[..n] == Unique(was[..i])
    {
      assert was[..i + 1][..i] == was[..i];
      if a[i] != a[i - 1] {
        a[n] := a[i];
        n := n + 1;
      }
      i := i + 1;
    }
    assert was[..a.Length] == was;
  }

  method BuildTrigrams(s: Text) returns (t: seq<int>)
    ensures IsTrigrams(t, s)
  {
    if |s| < 3 {
      return [];
    }
    var grams: seq<int> := [];
    for i := 0 to |s| - 2
      invariant grams == GramList(s, i)
    {
      grams := grams + [Gram(s, i)];
    }
    GramListHas(s, |s| - 2);
    Sorts(grams);
    var sorted := Sorted(grams);
    var a := new int[|sorted|](i requires 0 <= i < |sorted| => sorted[i]);
    assert a[..] == sorted;
    UniqueIsSet(sorted);
    var n := Dedup(a);
    t := a[..n];
  }

  // ---------------------------------------------------------------- similarity

  /** The Jaccard similarity of two sets; of two empty ones it is 1. */
  function Similarity(a: set<int>, b: set<int>): real {
    if a + b == {} then 1.0 else |a * b| as real / |a + b| as real
  }

  /** It is symmetric, between 0 and 1, and 1 exactly for equal sets. */
  lemma SimilarityLaws(a: set<int>, b: set<int>)
    ensures Similarity(a, b) == Similarity(b, a)
    ensures 0.0 <= Similarity(a, b) <= 1.0
    ensures Similarity(a, b) == 1.0 <==> a == b
  {
    assert a + b == b + a && a * b == b * a;
    Subset(a * b, a + b);
    if a + b != {} {
      Ratio(|a * b|, |a + b|);
      AllShared(a, b);
    }
  }

  lemma AllShared(a: set<int>, b: set<int>)
    ensures |a * b| == |a + b| <==> a == b
  {
    if |a * b| == |a + b| {
      SameSize(a * b, a + b);
      assert a <= a * b && b <= a * b;
    }
    if a == b {
      assert a * b == a + b;
    }
  }

  lemma Ratio(m: nat, n: nat)
    requires m <= n && n > 0
    ensures 0.0 <= m as real / n as real <= 1.0
    ensures m as real / n as real == 1.0 <==> m == n
  {
  }

  lemma Subset(a: set<int>, b: set<int>)
    requires a <= b
    ensures |a| <= |b|
  {
    assert a + (b - a) == b;
  }

  lemma SameSize(a: set<int>, b: set<int>)
    requires a <= b && |a| == |b|
    ensures a == b
  {
    assert a + (b - a) == b;
  }

  lemma UnionSize(a: set<int>, b: set<int>)
    ensures |a + b| == |a| + |b| - |a * b|
  {
  }

  /** What two pointers count from i and j on. */
  function Matches(a: seq<int>, b: seq<int>, i: nat, j: nat): nat
    requires i <= |a| && j <= |b|
    decreases |a| - i + |b| - j
  {
    if i == |a| || j == |b| then 0
    else if a[i] == b[j] then 1 + Matches(a, b, i + 1, j + 1)
    else if a[i] < b[j] then Matches(a, b, i + 1, j)
    else Matches(a, b, i, j + 1)
  }

  method Intersection(a: seq<int>, b: seq<int>) returns (n: nat)
    requires Increasing(a) && Increasing(b)
    ensures n == |Elems(a) * Elems(b)|
  {
    var i, j := 0, 0;
    n := 0;
    while i < |a| && j < |b|
      invariant i <= |a| && j <= |b|
      invariant n + Matches(a, b, i, j) == Matches(a, b, 0, 0)
    {
      if a[i] == b[j] {
        n := n + 1;
        i := i + 1;
        j := j + 1;
      } else if a[i] < b[j] {
        i := i + 1;
      } else {
        j := j + 1;
      }
    }
    MatchesShared(a, b, 0, 0);
    assert a[0..] == a && b[0..] == b;
  }

  method JaccardSimilarity(a: seq<int>, b: seq<int>) returns (sim: real)
    requires Increasing(a) && Increasing(b)
    ensures sim == Similarity(Elems(a), Elems(b))
  {
    if |a| == 0 && |b| == 0 {
      return 1.0;
    }
    var n := Intersection(a, b);
    FromCount(a, b, n);
    var union := |a| + |b| - n;
    sim := n as real / union as real;
  }

  lemma FromCount(a: seq<int>, b: seq<int>, shared: nat)
    requires Increasing(a) && Increasing(b) && |a| + |b| > 0 && shared == |Elems(a) * Elems(b)|
    ensures |a| + |b| - shared > 0
    ensures shared as real / (|a| + |b| - shared) as real == Similarity(Elems(a), Elems(b))
  {
    Size(a);
    Size(b);
    UnionSize(Elems(a), Elems(b));
    assert |a| + |b| - shared == |Elems(a) + Elems(b)|;
    if |a| > 0 { assert a[0] in Elems(a) + Elems(b); } else { assert b[0] in Elems(a) + Elems(b); }
  }

  lemma ElemsFrom(a: seq<int>, i: nat)
    requires i < |a|
    ensures Elems(a[i..]) == {a[i]} + Elems(a[i + 1..])
  {
    assert a[i..] == [a[i]] + a[i + 1..];
  }

  lemma NotAhead(a: seq<int>, i: nat, x: int)
    requires i <= |a| && Increasing(a) && (i < |a| ==> x < a[i])
    ensures x !in Elems(a[i..])
  {
  }

  lemma SharedFirst(x: int, a: set<int>, b: set<int>)
    requires x !in a && x !in b
    ensures |({x} + a) * ({x} + b)| == 1 + |a * b|
  {
    assert ({x} + a) * ({x} + b) == {x} + a * b;
  }

  lemma LoneFirst(x: int, a: set<int>, b: set<int>)
    requires x !in b
    ensures ({x} + a) * b == a * b && b * ({x} + a) == b * a
  {
  }

  /** Of increasing lists the two pointers count exactly the common elements. */
  lemma {:induction false} MatchesShared(a: seq<int>, b: seq<int>, i: nat, j: nat)
    requires Increasing(a) && Increasing(b) && i <= |a| && j <= |b|
    ensures Matches(a, b, i, j) == |Elems(a[i..]) * Elems(b[j..])|
    decreases |a| - i + |b| - j
  {
    if i == |a| || j == |b| {
      assert Elems(a[i..]) == {} || Elems(b[j..]) == {};
    } else if a[i] == b[j] {
      MatchesShared(a, b, i + 1, j + 1);
      BothAhead(a, b, i, j);
    } else if a[i] < b[j] {
      MatchesShared(a, b, i + 1, j);
      LeftAhead(a, b, i, j);
    } else {
      MatchesShared(a, b, i, j + 1);
      LeftAhead(b, a, j, i);
    }
  }

  lemma BothAhead(a: seq<int>, b: seq<int>, i: nat, j: nat)
    requires Increasing(a) && Increasing(b) && i < |a| && j < |b| && a[i] == b[j]
    ensures |Elems(a[i..]) * Elems(b[j..])| == 1 + |Elems(a[i + 1..]) * Elems(b[j + 1..])|
  {
    ElemsFrom(a, i);
    ElemsFrom(b, j);
    NotAhead(a, i + 1, a[i]);
    NotAhead(b, j + 1, b[j]);
    SharedFirst(a[i], Elems(a[i + 1..]), Elems(b[j + 1..]));
  }

  lemma LeftAhead(a: seq<int>, b: seq<int>, i: nat, j: nat)
    requires Increasing(b) && i < |a| && j < |b| && a[i] < b[j]
    ensures Elems(a[i..]) * Elems(b[j..]) == Elems(a[i + 1..]) * Elems(b[j..])
    ensures Elems(b[j..]) * Elems(a[i..]) == Elems(b[j..]) * Elems(a[i + 1..])
  {
    ElemsFrom(a, i);
    NotAhead(b, j, a[i]);
    LoneFirst(a[i], Elems(a[i + 1..]), Elems(b[j..]));
  }
}
