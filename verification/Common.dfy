/** Small value types shared by the engine models. */
module Common {
  datatype Option<+T> = None | Some(value: T)

  datatype Result<+T, +E> = Ok(value: T) | Err(error: E)

  /** No element of the sequence occurs at two positions. */
  ghost predicate Distinct<T>(s: seq<T>) {
    forall i, j :: 0 <= i < j < |s| ==> s[i] != s[j]
  }

  function Min(a: int, b: int): int { if a <= b then a else b }

  function Max(a: int, b: int): int { if a >= b then a else b }

  /** One step after the other, from the first element to the last. */
  function Fold<S, X>(f: (S, X) -> S, s: S, xs: seq<X>): S {
    if xs == [] then s else f(Fold(f, s, xs[..|xs| - 1]), xs[|xs| - 1])
  }

  lemma {:induction false} FoldTwice<S, X>(f: (S, X) -> S, s: S, a: seq<X>, b: seq<X>)
    ensures Fold(f, Fold(f, s, a), b) == Fold(f, s, a + b)
    decreases |b|
  {
    if b == [] {
      assert a + b == a;
    } else {
      var n := |b| - 1;
      FoldTwice(f, s, a, b[..n]);
      assert (a + b)[..|a + b| - 1] == a + b[..n];
    }
  }

  /** What holds at first, and after a step whenever before it, holds after all steps. */
  lemma {:induction false} Inductively(f: nat -> bool, n: nat)
    requires f(0) && forall i: nat :: i < n && f(i) ==> f(i + 1)
    ensures f(n)
  {
    if n > 0 { Inductively(f, n - 1); }
  }

  lemma Regroup<T>(a: seq<T>, b: seq<T>, c: seq<T>)
    ensures a + (b + c) == a + b + c
  {
  }
}
