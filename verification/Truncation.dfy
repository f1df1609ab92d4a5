/** Cutting text to a number of bytes without splitting a character. */
module Truncation {
  import opened Bytes
  import opened Segments

  // ---------------------------------------------------------------- UTF-8

  predicate Tail(b: Byte) { 0x80 <= b <= 0xBF }

  /** What may follow a first byte, and how many bytes the character has; 0 for a byte that
      begins none. */
  function Length(first: Byte): nat {
    if first <= 0x7F then 1
    else if 0xC2 <= first <= 0xDF then 2
    else if 0xE0 <= first <= 0xEF then 3
    else if 0xF0 <= first <= 0xF4 then 4
    else 0
  }

  predicate Second(first: Byte, second: Byte) {
    if first == 0xE0 then 0xA0 <= second <= 0xBF
    else if first == 0xED then 0x80 <= second <= 0x9F
    else if first == 0xF0 then 0x90 <= second <= 0xBF
    else if first == 0xF4 then 0x80 <= second <= 0x8F
    else Tail(second)
  }

  /** The size of the character a text begins with, 0 if it begins with none (section 4 of
      RFC 3629). */
  function Size(s: Text): (n: nat)
    ensures n <= 4 && n <= |s|
  {
    if s == [] then 0
    else
      var n := Length(s[0]);
      if n > |s| || (n >= 2 && !Second(s[0], s[1])) || (n >= 3 && !Tail(s[2])) || (n == 4 && !Tail(s[3])) then 0
      else n
  }

  /** Nothing but characters. */
  ghost predicate Valid(s: Text) { Whole(Size, s) }

  predicate RuneStart(b: Byte) { !Tail(b) }

  /** The replacement character. */
  predicate Replacement(s: Text) { |s| >= 3 && s[0] == 0xEF && s[1] == 0xBF && s[2] == 0xBD }

  /** Decoding the first character: whether it is the error character, which what cannot be
      decoded also gives, and how many bytes it takes. */
  function DecodeRune(s: Text): (r: (bool, nat))
    ensures r.1 <= |s|
  {
    if s == [] then (true, 0)
    else if Size(s) == 0 then (true, 1)
    else (Replacement(s), Size(s))
  }

  // ---------------------------------------------------------------- what characters are

  /** A code point that text can hold. */
  predicate Scalar(c: int) { 0 <= c < 0xD800 || 0xE000 <= c < 0x11_0000 }

  function Following(c: nat): Byte { (0x80 + c % 64) as Byte }

  /** The bytes of a code point (section 3 of RFC 3629). */
  function Encode(c: int): (r: Text)
    requires Scalar(c)
    ensures r != []
  {
    if c < 0x80 then [c as Byte]
    else if c < 0x800 then [(0xC0 + c / 64) as Byte, Following(c)]
    else if c < 0x1_0000 then [(0xE0 + c / 4096) as Byte, Following(c / 64), Following(c)]
    else [(0xF0 + c / 262144) as Byte, Following(c / 4096), Following(c / 64), Following(c)]
  }

  /** A code point's bytes are a character of just their length, whatever comes after them. */
  lemma EncodedSize(c: int, rest: Text)
    requires Scalar(c)
    ensures Size(Encode(c) + rest) == |Encode(c)|
  {
    var e := Encode(c);
    assert forall k :: 0 <= k < |e| ==> (e + rest)[k] == e[k];
    if 0x800 <= c < 0x1_0000 {
      ThreeBytes(c);
    } else if c >= 0x1_0000 {
      FourBytes(c);
    }
  }

  lemma ThreeBytes(c: int)
    requires Scalar(c) && 0x800 <= c < 0x1_0000
    ensures Length(Encode(c)[0]) == 3 && Second(Encode(c)[0], Encode(c)[1])
  {
    var top, mid := c / 4096, c / 64 % 64;
    assert c / 64 == top * 64 + mid;
  }

  lemma FourBytes(c: int)
    requires Scalar(c) && c >= 0x1_0000
    ensures Length(Encode(c)[0]) == 4 && Second(Encode(c)[0], Encode(c)[1])
  {
    var top, mid := c / 262144, c / 4096 % 64;
    assert c / 4096 == top * 64 + mid;
  }

  /** And every character is the bytes of a code point. */
  lemma SizeIsEncoded(s: Text) returns (c: int)
    requires Size(s) > 0
    ensures Scalar(c) && s[..Size(s)] == Encode(c)
  {
    var n := Size(s);
    if n == 1 {
      c := s[0] as int;
    } else if n == 2 {
      c := TwoDecoded(s[0], s[1]);
    } else if n == 3 {
      c := ThreeDecoded(s[0], s[1], s[2]);
    } else {
      c := FourDecoded(s[0], s[1], s[2], s[3]);
    }
  }

  lemma TwoDecoded(a: Byte, b: Byte) returns (c: int)
    requires Length(a) == 2 && Second(a, b)
    ensures Scalar(c) && Encode(c) == [a, b]
  {
    c := (a as int - 0xC0) * 64 + (b as int - 0x80);
  }

  lemma ThreeDecoded(a: Byte, b: Byte, d: Byte) returns (c: int)
    requires Length(a) == 3 && Second(a, b) && Tail(d)
    ensures Scalar(c) && Encode(c) == [a, b, d]
  {
    var x, y, z := a as int - 0xE0, b as int - 0x80, d as int - 0x80;
    c := x * 4096 + y * 64 + z;
    assert c / 64 == x * 64 + y && c % 64 == z;
  }

  lemma FourDecoded(a: Byte, b: Byte, d: Byte, e: Byte) returns (c: int)
    requires Length(a) == 4 && Second(a, b) && Tail(d) && Tail(e)
    ensures Scalar(c) && Encode(c) == [a, b, d, e]
  {
    var x, y, z, w := a as int - 0xF0, b as int - 0x80, d as int - 0x80, e as int - 0x80;
    c := x * 262144 + y * 4096 + z * 64 + w;
    assert c / 64 == x * 4096 + y * 64 + z && c % 64 == w;
    assert c / 4096 == x * 64 + y;
  }

  /** The replacement character is code point FFFD. */
  lemma ReplacementIs(s: Text)
    ensures Replacement(s) <==> Encode(0xFFFD) <= s
  {
    assert Encode(0xFFFD) == [0xEF, 0xBF, 0xBD];
  }

  function EncodeAll(cs: seq<int>): Text
    requires forall i :: 0 <= i < |cs| ==> Scalar(cs[i])
  {
    if cs == [] then [] else Encode(cs[0]) + EncodeAll(cs[1..])
  }

  ghost predicate Scalars(cs: seq<int>) { forall i :: 0 <= i < |cs| ==> Scalar(cs[i]) }

  lemma {:induction false} EncodedIsValid(cs: seq<int>)
    requires Scalars(cs)
    ensures Valid(EncodeAll(cs))
  {
    if cs != [] {
      EncodedIsValid(cs[1..]);
      EncodedSize(cs[0], EncodeAll(cs[1..]));
      assert EncodeAll(cs)[|Encode(cs[0])|..] == EncodeAll(cs[1..]);
    }
  }

  /** Text is valid if and only if it is the encoding of some code points. */
  lemma {:induction false} ValidIsEncoded(s: Text) returns (cs: seq<int>)
    requires Valid(s)
    ensures Scalars(cs) && s == EncodeAll(cs)
  {
    cs := [];
    if s != [] {
      var n := Size(s);
      var c := SizeIsEncoded(s);
      var rest := ValidIsEncoded(s[n..]);
      cs := [c] + rest;
      assert cs[1..] == rest;
    }
  }

  // ---------------------------------------------------------------- boundaries

  /** The last boundary between characters that is at `max` or before. */
  function LastBoundary(s: Text, max: nat): nat { Boundary(Size, s, max) }

  /** A character does not depend on what follows it. */
  lemma CharacterFirst(s: Text, t: Text)
    requires 0 < Size(s) <= |t| && t[..Size(s)] == s[..Size(s)]
    ensures Size(t) == Size(s)
  {
    assert forall k :: 0 <= k < Size(s) ==> t[..Size(s)][k] == t[k] && s[..Size(s)][k] == s[k];
  }

  /** A beginning that cuts the first character short begins with none. */
  lemma CharacterCut(s: Text, m: nat)
    requires m < Size(s)
    ensures Size(s[..m]) == 0
  {
  }

  lemma {:induction false} BoundaryValid(s: Text, max: nat)
    requires Valid(s)
    ensures Valid(s[..LastBoundary(s, max)])
  {
    var n := Size(s);
    if n > 0 && n <= max {
      BoundaryValid(s[n..], max - n);
      var b := LastBoundary(s[n..], max - n);
      assert s[..n + b][..n] == s[..n] && s[..n + b][n..] == s[n..][..b];
      CharacterFirst(s, s[..n + b]);
    }
  }

  lemma {:induction false} ValidAppend(s: Text, t: Text)
    requires Valid(s) && Valid(t)
    ensures Valid(s + t)
  {
    if s == [] {
      assert s + t == t;
    } else {
      var n := Size(s);
      ValidAppend(s[n..], t);
      assert (s + t)[..n] == s[..n] && (s + t)[n..] == s[n..] + t;
      CharacterFirst(s, s + t);
    }
  }

  /** Every character but its first byte is tails, and it has four bytes at most. */
  lemma CharacterShape(s: Text, k: nat)
    requires k < Size(s)
    ensures RuneStart(s[k]) <==> k == 0
  {
  }

  /** The character that byte `p` belongs to begins at the last boundary up to `p`. */
  lemma BoundaryStarts(s: Text, p: nat)
    requires Valid(s) && p < |s|
    ensures var b := LastBoundary(s, p);
            b <= p < b + Size(s[b..]) && RuneStart(s[b]) && forall k :: b < k <= p ==> !RuneStart(s[k])
  {
    PieceAt(Size, s, p);
    var b := LastBoundary(s, p);
    CharacterShape(s[b..], 0);
    forall k | b < k <= p ensures !RuneStart(s[k]) {
      CharacterShape(s[b..], k - b);
    }
  }

  // ---------------------------------------------------------------- truncating

  /** The cut text ends in a whole replacement character exactly at the limit. */
  predicate EndsReplaced(s: Text, max: nat)
    requires max <= |s|
  {
    max >= 3 && LastBoundary(s, max) == max && LastBoundary(s, max - 1) == max - 3 && Replacement(s[max - 3..])
  }

  /** How much of a text that is too long is kept. */
  function KeptLength(s: Text, max: nat): nat
    requires max <= |s|
  {
    if EndsReplaced(s, max) then max - 3 else LastBoundary(s, max)
  }

  /** The last byte before the limit that can begin a character is at `p`, among the last
      four, and what stands there up to the limit decodes to the error character. */
  predicate Undecodable(s: Text, max: nat, p: nat)
    requires max <= |s|
  {
    && max - 4 <= p < max && RuneStart(s[p])
    && (forall k :: p < k < max ==> !RuneStart(s[k]))
    && DecodeRune(s[p..max]).0
  }

  /** Everything up to the limit is kept, but for an undecodable end. */
  ghost predicate Kept(s: Text, max: nat, n: nat)
    requires max <= |s|
  {
    && (n == max || Undecodable(s, max, n))
    && forall p: nat :: Undecodable(s, max, p) ==> n == p
  }

  /** `marker` is what is put after a text that was cut. Of any bytes at most four before the
      limit are lost; of valid text the whole characters up to the limit are kept, but for a
      replacement character right before it. */
  method Truncate(s: Text, max: nat, marker: Text) returns (r: Text, ghost kept: nat)
    ensures |s| <= max ==> r == s
    ensures |s| > max ==> max - 4 <= kept <= max && Kept(s, max, kept) && r == s[..kept] + marker
    ensures |s| > max && Valid(s) ==> kept == KeptLength(s, max) && max - 3 <= kept
    ensures Valid(s) && Valid(marker) ==> Valid(r)
  {
    kept := max;
    if |s| <= max {
      return s, max;
    }
    var truncated := s[..max];
    var i := max - 1;
    while i >= max - 4 && i >= 0
      invariant -1 <= i < max && truncated == s[..max]
      invariant forall k :: i < k < max ==> !RuneStart(s[k])
      decreases i
    {
      if RuneStart(truncated[i]) {
        var (isError, size) := DecodeRune(truncated[i..]);
        assert truncated[i..] == s[i..max];
        if isError || i + size > |truncated| {
          truncated, kept := truncated[..i], i;
        }
        break;
      }
      i := i - 1;
    }
    assert truncated == s[..kept];
    if Valid(s) {
      KeptOfValid(s, max, kept);
      KeptIsValid(s, max);
      if Valid(marker) {
        ValidAppend(truncated, marker);
      }
    }
    r := truncated + marker;
  }

  /** Of a valid text that is the whole characters up to the limit. */
  lemma KeptOfValid(s: Text, max: nat, n: nat)
    requires Valid(s) && max < |s| && Kept(s, max, n)
    ensures n == KeptLength(s, max)
  {
    if max > 0 {
      BoundaryStarts(s, max - 1);
      DecodesAtEnd(s, max);
      var b := LastBoundary(s, max - 1);
      assert Undecodable(s, max, b) <==> DecodeRune(s[b..max]).0;
    }
  }

  /** What decoding the beginning of a character says. */
  lemma DecodesPart(c: Text, m: nat)
    requires 0 < m <= |c| && Size(c) > 0
    ensures var (isError, size) := DecodeRune(c[..m]);
            size <= m && (isError <==> m < Size(c) || Replacement(c)) && (!isError ==> size == Size(c))
  {
    if m < Size(c) {
      CharacterCut(c, m);
    } else {
      assert c[..m][..Size(c)] == c[..Size(c)];
      CharacterFirst(c, c[..m]);
    }
  }

  /** What decoding the last character before the limit says. */
  lemma DecodesAtEnd(s: Text, max: nat)
    requires Valid(s) && 0 < max < |s|
    ensures var b := LastBoundary(s, max - 1);
            var (isError, size) := DecodeRune(s[b..max]);
            && max - 4 <= b
            && b + size <= max
            && KeptLength(s, max) == if isError then b else max
  {
    var b := LastBoundary(s, max - 1);
    BoundaryStarts(s, max - 1);
    BoundaryNext(Size, s, max - 1);
    PartDecodes(s, b, max);
    KeptByDecoding(s, max, b, Size(s[b..]));
  }

  lemma PartDecodes(s: Text, b: nat, max: nat)
    requires b < max <= |s| && Size(s[b..]) > 0
    ensures var (isError, size) := DecodeRune(s[b..max]);
            size <= max - b && (isError <==> max - b < Size(s[b..]) || Replacement(s[b..]))
  {
    assert s[b..max] == s[b..][..max - b];
    DecodesPart(s[b..], max - b);
  }

  lemma KeptByDecoding(s: Text, max: nat, b: nat, n: nat)
    requires max <= |s| && b < max && n == Size(s[b..]) && b == LastBoundary(s, max - 1) && max < b + n + 1
    requires LastBoundary(s, max) == if b + n == max then max else b
    ensures KeptLength(s, max) == if max - b < n || Replacement(s[b..]) then b else max
  {
    ReplacedSize(s[b..]);
  }

  lemma ReplacedSize(c: Text)
    ensures Replacement(c) ==> Size(c) == 3
  {
  }

  lemma KeptIsValid(s: Text, max: nat)
    requires Valid(s) && max < |s|
    ensures Valid(s[..KeptLength(s, max)]) && max - 3 <= KeptLength(s, max) <= max
  {
    BoundaryValid(s, max);
    if EndsReplaced(s, max) {
      BoundaryValid(s, max - 1);
    } else if max > 0 {
      BoundaryNear(s, max);
    }
  }

  lemma BoundaryNear(s: Text, max: nat)
    requires Valid(s) && 0 < max < |s|
    ensures max - 3 <= LastBoundary(s, max)
  {
    BoundaryStarts(s, max - 1);
    BoundaryNext(Size, s, max - 1);
  }
}
