/** Text as characters, with what is a space and what is the lower case of a character left to
    the character set. */
module Texts {
  type Text = seq<char>

  datatype Charset = Charset(isSpace: char -> bool, lower: char -> char)

  predicate Letter(c: char) { 'a' <= c <= 'z' || '0' <= c <= '9' }

  predicate IdChar(c: char) { Letter(c) || c == '_' || c == '-' }

  /** What the characters of ids and keys are to the character set; lower-casing makes no
      spaces, and lower case stays as it is. */
  ghost predicate Lawful(cs: Charset) {
    && (forall c :: IdChar(c) || c == ':' ==> !cs.isSpace(c) && cs.lower(c) == c)
    && (forall c :: cs.isSpace(cs.lower(c)) == cs.isSpace(c))
    && (forall c :: cs.lower(cs.lower(c)) == cs.lower(c))
  }

  ghost predicate All(p: char -> bool, s: Text) { forall i :: 0 <= i < |s| ==> p(s[i]) }

  function Lower(cs: Charset, s: Text): (r: Text)
    ensures |r| == |s| && forall i :: 0 <= i < |s| ==> r[i] == cs.lower(s[i])
  {
    if s == [] then [] else Lower(cs, s[..|s| - 1]) + [cs.lower(s[|s| - 1])]
  }

  function TrimLeft(cs: Charset, s: Text): Text {
    if s != [] && cs.isSpace(s[0]) then TrimLeft(cs, s[1..]) else s
  }

  function TrimRight(cs: Charset, s: Text): Text {
    if s != [] && cs.isSpace(s[|s| - 1]) then TrimRight(cs, s[..|s| - 1]) else s
  }

  function Trim(cs: Charset, s: Text): Text { TrimRight(cs, TrimLeft(cs, s)) }

  /** Nothing to trim. */
  ghost predicate Tight(cs: Charset, s: Text) {
    s == [] || (!cs.isSpace(s[0]) && !cs.isSpace(s[|s| - 1]))
  }

  lemma {:induction false} TrimLeftStarts(cs: Charset, s: Text)
    ensures var r := TrimLeft(cs, s); r == [] || !cs.isSpace(r[0])
  {
    if s != [] && cs.isSpace(s[0]) { TrimLeftStarts(cs, s[1..]); }
  }

  lemma {:induction false} TrimRightEnds(cs: Charset, s: Text)
    requires s == [] || !cs.isSpace(s[0])
    ensures Tight(cs, TrimRight(cs, s))
  {
    if s != [] && cs.isSpace(s[|s| - 1]) { TrimRightEnds(cs, s[..|s| - 1]); }
  }

  lemma TrimTightens(cs: Charset, s: Text)
    ensures Tight(cs, Trim(cs, s))
  {
    TrimLeftStarts(cs, s);
    TrimRightEnds(cs, TrimLeft(cs, s));
  }

  lemma TrimTight(cs: Charset, s: Text)
    requires Tight(cs, s)
    ensures Trim(cs, s) == s
  {
  }

  lemma LowerTight(cs: Charset, s: Text)
    requires Lawful(cs) && Tight(cs, s)
    ensures Tight(cs, Lower(cs, s))
  {
  }

  predicate KeyChar(c: char) { IdChar(c) || c == ':' }

  /** Text of key characters is tight and in lower case. */
  lemma KeyText(cs: Charset, s: Text)
    requires Lawful(cs) && forall i :: 0 <= i < |s| ==> KeyChar(s[i])
    ensures Tight(cs, s) && Trim(cs, s) == s && Lower(cs, s) == s
  {
    if s != [] { assert KeyChar(s[0]) && KeyChar(s[|s| - 1]); }
  }

  lemma IdText(cs: Charset, s: Text)
    requires Lawful(cs) && All(IdChar, s)
    ensures Tight(cs, s) && Trim(cs, s) == s && Lower(cs, s) == s
  {
    forall i | 0 <= i < |s| ensures KeyChar(s[i]) { assert IdChar(s[i]); }
    KeyText(cs, s);
  }

  // ---------------------------------------------------------------- cutting at colons

  /** The first colon, or the end. */
  function Colon(s: Text): (i: nat)
    ensures i <= |s|
  {
    if s == [] || s[0] == ':' then 0 else 1 + Colon(s[1..])
  }

  lemma {:induction false} ColonAfter(a: Text, b: Text)
    requires ':' !in a
    ensures Colon(a + [':'] + b) == |a|
  {
    if a != [] {
      assert (a + [':'] + b)[1..] == a[1..] + [':'] + b;
      ColonAfter(a[1..], b);
    } else {
      assert a + [':'] + b == [':'] + b;
    }
  }

  /** Two texts cut by a first colon are equal only part by part. */
  lemma FirstPart(a: Text, b: Text, c: Text, d: Text)
    requires ':' !in a && ':' !in c && a + [':'] + b == c + [':'] + d
    ensures a == c && b == d
  {
    ColonAfter(a, b);
    ColonAfter(c, d);
    assert (a + [':'] + b)[..|a|] == a && (c + [':'] + d)[..|c|] == c;
    assert (a + [':'] + b)[|a| + 1..] == b && (c + [':'] + d)[|c| + 1..] == d;
  }

  lemma IdNoColon(s: Text)
    requires All(IdChar, s)
    ensures ':' !in s
  {
  }
}
