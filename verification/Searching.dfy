/** Searching a list with conditions that are left open. */
module Searching {
  import opened Common

  function First<T>(p: T -> bool, s: seq<T>): Option<T> {
    if s == [] then None else if p(s[0]) then Some(s[0]) else First(p, s[1..])
  }

  function Filter<T>(q: T -> bool, s: seq<T>): seq<T> {
    if s == [] then [] else if q(s[0]) then [s[0]] + Filter(q, s[1..]) else Filter(q, s[1..])
  }

  ghost predicate FirstThat<T>(p: T -> bool, q: T -> bool, s: seq<T>, i: nat) {
    i < |s| && q(s[i]) && p(s[i]) && forall j :: 0 <= j < i ==> !(q(s[j]) && p(s[j]))
  }

  ghost predicate NoneThat<T>(p: T -> bool, q: T -> bool, s: seq<T>) {
    forall j :: 0 <= j < |s| ==> !(q(s[j]) && p(s[j]))
  }

  /** Searching what is filtered finds the first of all that passes both conditions. */
  lemma {:induction false} FirstOfFiltered<T>(p: T -> bool, q: T -> bool, s: seq<T>) returns (i: nat)
    ensures var f := First(p, Filter(q, s));
            if f.Some? then FirstThat(p, q, s, i) && f.value == s[i] else NoneThat(p, q, s)
  {
    i := 0;
    if s != [] {
      var rest := Filter(q, s[1..]);
      assert ([s[0]] + rest)[1..] == rest;
      if !(q(s[0]) && p(s[0])) {
        var k := FirstOfFiltered(p, q, s[1..]);
        i := k + 1;
      }
    }
  }
}
