/** The contract between a producer and a consumer that may stop it: yield returns false once
    the consumer wants no more. `go` is the consumer's answer to everything it has so far. */
module Yields {
  /** What reaches the consumer of `rest` after `done`. */
  function Delivered<T>(go: seq<T> -> bool, done: seq<T>, rest: seq<T>): seq<T>
    decreases |rest|
  {
    if rest == [] then done
    else if go(done + [rest[0]]) then Delivered(go, done + [rest[0]], rest[1..])
    else done + [rest[0]]
  }

  lemma OneMore<T>(go: seq<T> -> bool, done: seq<T>, x: T, rest: seq<T>)
    ensures Delivered(go, done, [x] + rest) ==
            if go(done + [x]) then Delivered(go, done + [x], rest) else done + [x]
  {
    assert ([x] + rest)[1..] == rest;
  }

  ghost predicate WentOn<T>(go: seq<T> -> bool, items: seq<T>, from: nat, to: int) {
    forall n :: from < n <= to && n <= |items| ==> go(items[..n])
  }

  /** The consumer receives a prefix, everything if it never stops, and nothing after the
      first item at which it stops. */
  lemma {:induction false} NothingAfterStop<T>(go: seq<T> -> bool, done: seq<T>, rest: seq<T>)
    ensures var out := Delivered(go, done, rest);
            && |done| <= |out| <= |done + rest| && out == (done + rest)[..|out|]
            && WentOn(go, out, |done|, |out| - 1)
            && (out == done + rest || !go(out))
    decreases |rest|
  {
    if rest != [] {
      var next := done + [rest[0]];
      assert next + rest[1..] == done + rest;
      if go(next) {
        NothingAfterStop(go, next, rest[1..]);
        var out := Delivered(go, next, rest[1..]);
        assert out[..|next|] == next;
      } else {
        assert (done + rest)[..|next|] == next;
      }
    } else {
      assert done + rest == done;
    }
  }

  /** The same for a producer that starts with nothing delivered and has something to say. */
  lemma FromTheStart<T>(go: seq<T> -> bool, all: seq<T>)
    requires all != []
    ensures var out := Delivered(go, [], all);
            && 0 < |out| <= |all| && out == all[..|out|]
            && (forall n :: 0 < n < |out| ==> go(out[..n]))
            && (out == all || !go(out))
  {
    assert [] + all == all;
    NothingAfterStop(go, [], all);
    assert [] + [all[0]] == [all[0]];
    NothingAfterStop(go, [all[0]], all[1..]);
  }
}
