/** The normal form of agent and account ids. */
module AgentId {
  import opened Texts

  const MAX := 64

  predicate ValidId(s: Text) {
    0 < |s| <= MAX && Letter(s[0]) && forall i :: 0 <= i < |s| ==> IdChar(s[i])
  }

  /** Every run of other characters becomes one dash. */
  function Collapsed(s: Text): Text {
    if s == [] then []
    else
      var front, last := s[..|s| - 1], s[|s| - 1];
      if IdChar(last) then Collapsed(front) + [last]
      else if front != [] && !IdChar(front[|front| - 1]) then Collapsed(front)
      else Collapsed(front) + ['-']
  }

  function NoLeadingDash(s: Text): Text { if s != [] && s[0] == '-' then NoLeadingDash(s[1..]) else s }

  function NoTrailingDash(s: Text): Text {
    if s != [] && s[|s| - 1] == '-' then NoTrailingDash(s[..|s| - 1]) else s
  }

  function Stripped(s: Text): Text { NoTrailingDash(NoLeadingDash(Collapsed(s))) }

  function Cut(s: Text): Text { if |s| > MAX then s[..MAX] else s }

  function NormalizeID(cs: Charset, id: Text, fallback: Text): Text {
    var lower := Lower(cs, Trim(cs, id));
    if Trim(cs, id) == [] then fallback
    else if ValidId(lower) then lower
    else if Cut(Stripped(lower)) == [] then fallback
    else Cut(Stripped(lower))
  }

  // ---------------------------------------------------------------- what cleaning does

  ghost predicate NoneOf(p: char -> bool, s: Text) { forall i :: 0 <= i < |s| ==> !p(s[i]) }

  /** Characters of ids stay as they are, each run of others becomes one dash, one after the other:
      characters, a run, and a rest that begins with a character of ids again, if with any. */
  lemma {:induction false} CollapsedRuns(a: Text, run: Text, b: Text)
    requires All(IdChar, a) && run != [] && NoneOf(IdChar, run) && (b != [] ==> IdChar(b[0]))
    ensures Collapsed(a + run + b) == a + ['-'] + Collapsed(b)
    decreases |b|, |run|
  {
    var s := a + run + b;
    if b != [] {
      var n := |b| - 1;
      assert s[..|s| - 1] == a + run + b[..n];
      CollapsedRuns(a, run, b[..n]);
      if n == 0 {
        assert b == [b[0]] && b[..0] == [] && a + run + [] == a + run;
        assert a + ['-'] + [] == a + ['-'];
      }
      assert s[|s| - 1] == b[n];
      OneMore(a + ['-'], b, a + run);
    } else {
      var n := |run| - 1;
      assert s == a + run && s[..|s| - 1] == a + run[..n] && s[|s| - 1] == run[n];
      if n > 0 {
        assert a + run[..n] + [] == a + run[..n];
        CollapsedRuns(a, run[..n], []);
        assert s[|s| - 2] == run[n - 1];
      } else {
        assert a + run[..0] == a;
        CollapsedSame(a);
        assert a != [] ==> s[|s| - 2] == a[|a| - 1];
      }
      assert a + ['-'] + [] == a + ['-'];
    }
  }

  /** One character more of the rest: what it adds is the same before and after the run. */
  lemma OneMore(done: Text, b: Text, before: Text)
    requires b != [] && IdChar(b[0]) && before != []
    requires Collapsed(before + b[..|b| - 1]) == done + Collapsed(b[..|b| - 1])
    ensures Collapsed(before + b) == done + Collapsed(b)
  {
    var n := |b| - 1;
    var s := before + b;
    assert s[..|s| - 1] == before + b[..n] && s[|s| - 1] == b[n];
    assert n > 0 ==> s[|s| - 2] == b[n - 1];
    if n == 0 { assert Collapsed(b) == Collapsed([]) + [b[0]]; }
    var front := Collapsed(b[..n]);
    assert done + front + [b[n]] == done + (front + [b[n]]);
    assert done + front + ['-'] == done + (front + ['-']);
  }

  function Dashes(n: nat): Text { seq(n, i => '-') }

  lemma {:induction false} LeadingCut(s: Text) returns (n: nat)
    ensures s == Dashes(n) + NoLeadingDash(s)
  {
    n := 0;
    if s != [] && s[0] == '-' {
      var k := LeadingCut(s[1..]);
      n := k + 1;
      assert s == ['-'] + s[1..] && Dashes(n) == ['-'] + Dashes(k);
    } else {
      assert Dashes(0) + s == s;
    }
  }

  lemma {:induction false} TrailingCut(s: Text) returns (n: nat)
    ensures s == NoTrailingDash(s) + Dashes(n)
  {
    n := 0;
    if s != [] && s[|s| - 1] == '-' {
      var k := TrailingCut(s[..|s| - 1]);
      n := k + 1;
      assert s == s[..|s| - 1] + ['-'] && Dashes(n) == Dashes(k) + ['-'];
    } else {
      assert s + Dashes(0) == s;
    }
  }

  /** Then all dashes at both ends go, and nothing else. */
  lemma StrippedIs(s: Text) returns (k: nat, l: nat)
    ensures Collapsed(s) == Dashes(k) + Stripped(s) + Dashes(l)
    ensures Stripped(s) != [] ==> Stripped(s)[0] != '-' && Stripped(s)[|Stripped(s)| - 1] != '-'
  {
    k := LeadingCut(Collapsed(s));
    l := TrailingCut(NoLeadingDash(Collapsed(s)));
    StrippedIds(s);
    assert Dashes(k) + (Stripped(s) + Dashes(l)) == Dashes(k) + Stripped(s) + Dashes(l);
  }

  // ---------------------------------------------------------------- the alphabet

  lemma {:induction false} CollapsedIds(s: Text)
    ensures All(IdChar, Collapsed(s))
  {
    if s != [] { CollapsedIds(s[..|s| - 1]); }
  }

  lemma {:induction false} LeadingIds(s: Text)
    requires All(IdChar, s)
    ensures All(IdChar, NoLeadingDash(s)) && (NoLeadingDash(s) != [] ==> NoLeadingDash(s)[0] != '-')
  {
    if s != [] && s[0] == '-' { LeadingIds(s[1..]); }
  }

  lemma {:induction false} TrailingIds(s: Text)
    requires All(IdChar, s) && (s != [] ==> s[0] != '-')
    ensures var r := NoTrailingDash(s);
            && All(IdChar, r) && |r| <= |s| && r == s[..|r|] && (r != [] ==> r[0] != '-' && r[|r| - 1] != '-')
            && (s != [] ==> r != [] && r[0] == s[0])
  {
    if s != [] && s[|s| - 1] == '-' { TrailingIds(s[..|s| - 1]); }
  }

  lemma StrippedIds(s: Text)
    ensures var r := Stripped(s);
            All(IdChar, r) && (r != [] ==> r[0] != '-' && r[|r| - 1] != '-')
  {
    CollapsedIds(s);
    LeadingIds(Collapsed(s));
    TrailingIds(NoLeadingDash(Collapsed(s)));
  }

  /** An id has 1 to 64 characters of the alphabet and does not begin with a dash. */
  lemma Alphabet(cs: Charset, id: Text, fallback: Text)
    requires ValidId(fallback)
    ensures var r := NormalizeID(cs, id, fallback);
            0 < |r| <= MAX && All(IdChar, r) && r[0] != '-'
  {
    StrippedIds(Lower(cs, Trim(cs, id)));
  }

  // ---------------------------------------------------------------- what the alphabet misses

  predicate Kept(c: char) { Letter(c) || c == '_' }

  /** The first character that is a letter, a digit or an underscore is an underscore. */
  predicate Underscored(s: Text) { s != [] && if Kept(s[0]) then s[0] == '_' else Underscored(s[1..]) }

  lemma {:induction false} CollapsedFirst(s: Text)
    ensures Underscored(Collapsed(s)) <==> Underscored(s)
    ensures (exists i :: 0 <= i < |s| && Kept(s[i])) <==> exists i :: 0 <= i < |Collapsed(s)| && Kept(Collapsed(s)[i])
  {
    if s != [] {
      var front, last := s[..|s| - 1], s[|s| - 1];
      CollapsedFirst(front);
      assert s == front + [last];
      UnderscoredAppend(front, last);
      if IdChar(last) { UnderscoredAppend(Collapsed(front), last); } else { UnderscoredAppend(Collapsed(front), '-'); }
      KeptAppend(front, last);
      if IdChar(last) { KeptAppend(Collapsed(front), last); } else { KeptAppend(Collapsed(front), '-'); }
    }
  }

  lemma KeptAppend(s: Text, c: char)
    ensures (exists i :: 0 <= i < |s + [c]| && Kept((s + [c])[i])) <==>
            Kept(c) || exists i :: 0 <= i < |s| && Kept(s[i])
  {
    assert (s + [c])[|s|] == c;
    forall i | 0 <= i < |s| ensures (s + [c])[i] == s[i] { }
  }

  lemma {:induction false} UnderscoredAppend(s: Text, c: char)
    ensures Underscored(s + [c]) <==>
      Underscored(s) || (c == '_' && forall i :: 0 <= i < |s| ==> !Kept(s[i]))
  {
    if s != [] {
      assert (s + [c])[1..] == s[1..] + [c];
      UnderscoredAppend(s[1..], c);
      assert s == [s[0]] + s[1..];
    }
  }

  lemma {:induction false} LeadingFirst(s: Text)
    ensures Underscored(NoLeadingDash(s)) <==> Underscored(s)
  {
    if s != [] && s[0] == '-' { LeadingFirst(s[1..]); }
  }

  /** The pattern promised for ids, a letter or digit first, is met exactly by ids in which no
      underscore comes before the first letter or digit. */
  lemma PatternMet(cs: Charset, id: Text, fallback: Text)
    requires ValidId(fallback)
    ensures ValidId(NormalizeID(cs, id, fallback)) <==> !Underscored(Lower(cs, Trim(cs, id)))
  {
    var lower := Lower(cs, Trim(cs, id));
    Alphabet(cs, id, fallback);
    if ValidId(lower) {
    } else {
      CollapsedIds(lower);
      LeadingIds(Collapsed(lower));
      TrailingIds(NoLeadingDash(Collapsed(lower)));
      CollapsedFirst(lower);
      LeadingFirst(Collapsed(lower));
    }
  }

  /** There are such ids: an underscore and a letter, for one. */
  lemma PatternMissed(cs: Charset, fallback: Text) returns (id: Text)
    requires Lawful(cs) && ValidId(fallback)
    ensures !ValidId(NormalizeID(cs, id, fallback))
  {
    id := ['_', 'a'];
    IdText(cs, id);
    PatternMet(cs, id, fallback);
  }

  // ---------------------------------------------------------------- normalising twice

  lemma {:induction false} CollapsedSame(s: Text)
    requires All(IdChar, s)
    ensures Collapsed(s) == s
  {
    if s != [] {
      CollapsedSame(s[..|s| - 1]);
      assert IdChar(s[|s| - 1]);
    }
  }

  /** An id is its own normal form unless it begins with an underscore and ends in a dash. */
  lemma NormalTwice(cs: Charset, r: Text, fallback: Text)
    requires Lawful(cs) && 0 < |r| <= MAX && All(IdChar, r) && r[0] != '-'
    ensures NormalizeID(cs, r, fallback) == r <==> !(r[0] == '_' && r[|r| - 1] == '-')
  {
    IdText(cs, r);
    CollapsedSame(r);
    if !ValidId(r) {
      assert IdChar(r[0]) && r[0] == '_';
      assert NoLeadingDash(Collapsed(r)) == r;
      TrailingIds(r);
      if r[|r| - 1] == '-' { TrailingIds(r[..|r| - 1]); }
    }
  }

  /** Cleaned, the id is longer than 64, begins with an underscore and is cut right after a
      dash. */
  predicate CutAtDash(cs: Charset, id: Text) {
    var lower := Lower(cs, Trim(cs, id));
    var s := Stripped(lower);
    !ValidId(lower) && |s| > MAX && s[0] == '_' && s[MAX - 1] == '-'
  }

  /** Normalising is idempotent except for exactly these ids. */
  lemma IdempotentUnlessCut(cs: Charset, id: Text, fallback: Text)
    requires Lawful(cs) && ValidId(fallback)
    ensures NormalizeID(cs, NormalizeID(cs, id, fallback), fallback) != NormalizeID(cs, id, fallback) <==>
            CutAtDash(cs, id)
  {
    var lower := Lower(cs, Trim(cs, id));
    Alphabet(cs, id, fallback);
    StrippedIds(lower);
    NormalTwice(cs, NormalizeID(cs, id, fallback), fallback);
    if Trim(cs, id) == [] { assert lower == [] && Collapsed(lower) == []; }
  }

  /** Of an id the normal form is without a dash at its end, or the id itself. */
  lemma LosesDash(cs: Charset, r: Text, fallback: Text)
    requires Lawful(cs) && ValidId(fallback) && 0 < |r| <= MAX && All(IdChar, r) && r[0] != '-'
    ensures var s := NormalizeID(cs, r, fallback); s == r || s[|s| - 1] != '-'
  {
    NormalTwice(cs, r, fallback);
    if r[0] == '_' && r[|r| - 1] == '-' {
      IdText(cs, r);
      CollapsedSame(r);
      assert NoLeadingDash(r) == r && !ValidId(r);
      TrailingIds(r);
    }
  }

  /** A second normal form is always its own. */
  lemma TwiceSettles(cs: Charset, id: Text, fallback: Text)
    requires Lawful(cs) && ValidId(fallback)
    ensures var twice := NormalizeID(cs, NormalizeID(cs, id, fallback), fallback);
            NormalizeID(cs, twice, fallback) == twice
  {
    var once := NormalizeID(cs, id, fallback);
    Alphabet(cs, id, fallback);
    LosesDash(cs, once, fallback);
    Settled(cs, once, fallback);
  }

  lemma Settled(cs: Charset, once: Text, fallback: Text)
    requires Lawful(cs) && ValidId(fallback)
    requires var s := NormalizeID(cs, once, fallback); s == once || (s != [] && s[|s| - 1] != '-')
    ensures var s := NormalizeID(cs, once, fallback); NormalizeID(cs, s, fallback) == s
  {
    Alphabet(cs, once, fallback);
    NormalTwice(cs, NormalizeID(cs, once, fallback), fallback);
  }

  /** There are such ids. */
  lemma NotIdempotent(cs: Charset, fallback: Text) returns (id: Text)
    requires Lawful(cs) && ValidId(fallback)
    ensures NormalizeID(cs, NormalizeID(cs, id, fallback), fallback) != NormalizeID(cs, id, fallback)
  {
    var middle: Text := seq(62, i => 'a');
    id := ['_'] + middle + ['-', 'b'];
    assert All(IdChar, id) && id[0] == '_' && id[63] == '-' && id[64] == 'b';
    IdText(cs, id);
    CollapsedSame(id);
    IdempotentUnlessCut(cs, id, fallback);
  }
}
