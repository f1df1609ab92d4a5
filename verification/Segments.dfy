/** Sequences made of pieces: `size` is how long the first piece is, 0 if there is none. */
module Segments {
  ghost predicate Whole<T>(size: seq<T> -> nat, s: seq<T>) {
    s == [] || (0 < size(s) <= |s| && Whole(size, s[size(s)..]))
  }

  /** The last boundary between pieces that is at `max` or before. */
  function Boundary<T>(size: seq<T> -> nat, s: seq<T>, max: nat): (b: nat)
    ensures b <= max && b <= |s|
  {
    var n := size(s);
    if n == 0 || n > max || n > |s| then 0 else n + Boundary(size, s[n..], max - n)
  }

  /** Both sides of a boundary: the rest is whole, and the piece there reaches past `p`. */
  lemma {:induction false} PieceAt<T>(size: seq<T> -> nat, s: seq<T>, p: nat)
    requires Whole(size, s) && p < |s|
    ensures var b := Boundary(size, s, p);
            b <= p < b + size(s[b..]) <= |s| && Whole(size, s[b..])
  {
    var n := size(s);
    if n <= p {
      PieceAt(size, s[n..], p - n);
      var b := Boundary(size, s[n..], p - n);
      assert s[n..][b..] == s[n + b..];
    } else {
      assert s[0..] == s;
    }
  }

  /** One further, the last boundary stays unless a piece ends there. */
  lemma {:induction false} BoundaryNext<T>(size: seq<T> -> nat, s: seq<T>, p: nat)
    requires Whole(size, s) && p < |s|
    ensures var b := Boundary(size, s, p);
            Boundary(size, s, p + 1) == if b + size(s[b..]) == p + 1 then p + 1 else b
  {
    var n := size(s);
    if n <= p {
      BoundaryNext(size, s[n..], p - n);
      var b := Boundary(size, s[n..], p - n);
      assert s[n..][b..] == s[n + b..];
    } else {
      assert s[0..] == s;
    }
  }
}
