/** The text layer of the session log: newline-separated files as strings.Split,
    strings.TrimRight, strings.Join and bufio.Scanner see them. */
module JsonLines {
  /** The token limit given to the scanner in loadFile. */
  const MAX_TOKEN: nat := 10 * 1024 * 1024

  const NL: char := '\n'
  const CR: char := '\r'

  /** What encoding/json guarantees of one marshalled record. */
  predicate Plain(line: string) {
    line != "" && NL !in line && CR !in line
  }

  ghost predicate AllPlain(lines: seq<string>) {
    forall i :: 0 <= i < |lines| ==> Plain(lines[i])
  }

  /** A line the scanner can hold together with its newline. */
  predicate Fits(line: string) {
    |line| < MAX_TOKEN
  }

  ghost predicate AllFit(lines: seq<string>) {
    forall i :: 0 <= i < |lines| ==> Fits(lines[i])
  }

  function NlIndex(s: string): (i: nat)
    ensures i <= |s| && NL !in s[..i] && (i < |s| ==> s[i] == NL)
  {
    if s == "" || s[0] == NL then 0
    else
      var i := 1 + NlIndex(s[1..]);
      assert s[..i] == [s[0]] + s[1..][..i - 1];
      i
  }

  /** strings.Split(s, "\n"). */
  function Split(s: string): (r: seq<string>)
    decreases |s|
  {
    var i := NlIndex(s);
    if i == |s| then [s] else [s[..i]] + Split(s[i + 1..])
  }

  /** strings.Join(lines, "\n"). */
  function Join(lines: seq<string>): string {
    if lines == [] then "" else if |lines| == 1 then lines[0] else lines[0] + [NL] + Join(lines[1..])
  }

  /** strings.TrimRight(s, "\n"). */
  function TrimRight(s: string): string {
    if s != "" && s[|s| - 1] == NL then TrimRight(s[..|s| - 1]) else s
  }

  /** What is cut off a text is all of its newlines at the end, and nothing else. */
  lemma {:induction false} TrimRightIs(s: string) returns (n: nat)
    ensures n <= |s| && TrimRight(s) == s[..|s| - n] && (forall i :: |s| - n <= i < |s| ==> s[i] == NL)
    ensures TrimRight(s) == "" || TrimRight(s)[|TrimRight(s)| - 1] != NL
  {
    n := 0;
    if s != "" && s[|s| - 1] == NL {
      var k := TrimRightIs(s[..|s| - 1]);
      n := k + 1;
    }
  }

  /** The bytes appendLine leaves in a file: every line followed by a newline. */
  function Unlines(lines: seq<string>): string {
    if lines == [] then "" else lines[0] + [NL] + Unlines(lines[1..])
  }

  function DropCR(line: string): string {
    if line != "" && line[|line| - 1] == CR then line[..|line| - 1] else line
  }

  /** The tokens a scanner delivers, and whether it stopped at a token that does not fit. */
  datatype Scanned = Scanned(lines: seq<string>, tooLong: bool)

  function Scan(s: string): Scanned
    decreases |s|
  {
    if s == "" then Scanned([], false)
    else
      var i := NlIndex(s);
      if i >= MAX_TOKEN then Scanned([], true)
      else
        var rest := Scan(if i < |s| then s[i + 1..] else "");
        Scanned([DropCR(s[..i])] + rest.lines, rest.tooLong)
  }

  lemma NlIndexUnique(s: string, i: nat)
    requires i <= |s| && NL !in s[..i] && (i < |s| ==> s[i] == NL)
    ensures NlIndex(s) == i
  {
    var j := NlIndex(s);
    assert forall k :: 0 <= k < i ==> s[k] == s[..i][k] && s[k] in s[..i];
    assert forall k :: 0 <= k < j ==> s[k] == s[..j][k] && s[k] in s[..j];
  }

  /** Cutting after the first newline. */
  lemma FirstLine(line: string, rest: string)
    requires NL !in line
    ensures NlIndex(line + [NL] + rest) == |line|
    ensures (line + [NL] + rest)[..|line|] == line
    ensures (line + [NL] + rest)[|line| + 1..] == rest
  {
    assert (line + [NL] + rest)[..|line|] == line;
    NlIndexUnique(line + [NL] + rest, |line|);
  }

  lemma {:induction false} SplitJoin(lines: seq<string>)
    requires lines != [] && AllPlain(lines)
    ensures Split(Join(lines)) == lines
  {
    if |lines| == 1 {
      NlIndexUnique(lines[0], |lines[0]|);
    } else {
      SplitJoin(lines[1..]);
      SplitFirst(lines[0], Join(lines[1..]));
    }
  }

  lemma SplitFirst(line: string, rest: string)
    requires NL !in line
    ensures Split(line + [NL] + rest) == [line] + Split(rest)
  {
    FirstLine(line, rest);
  }

  lemma {:induction false} UnlinesIsJoin(lines: seq<string>)
    requires lines != [] && AllPlain(lines)
    ensures Unlines(lines) == Join(lines) + [NL]
    ensures Join(lines) != "" && Join(lines)[|Join(lines)| - 1] != NL
  {
    if |lines| == 1 {
      assert Unlines(lines) == lines[0] + [NL] + Unlines([]);
    } else {
      UnlinesIsJoin(lines[1..]);
    }
  }

  /** The trim and split of compact recover exactly the lines that were appended. */
  lemma TrimSplitRecovers(lines: seq<string>)
    requires lines != [] && AllPlain(lines)
    ensures Split(TrimRight(Unlines(lines))) == lines
  {
    UnlinesIsJoin(lines);
    TrimLast(Join(lines));
    SplitJoin(lines);
  }

  lemma TrimLast(s: string)
    requires s != "" && s[|s| - 1] != NL
    ensures TrimRight(s + [NL]) == s
  {
    assert (s + [NL])[..|s|] == s;
  }

  lemma {:induction false} UnlinesAppend(lines: seq<string>, line: string)
    ensures Unlines(lines + [line]) == Unlines(lines) + line + [NL]
  {
    if lines == [] {
      assert lines + [line] == [line];
      assert Unlines([line]) == line + [NL] + Unlines([]);
    } else {
      UnlinesAppend(lines[1..], line);
      assert (lines + [line])[1..] == lines[1..] + [line];
    }
  }

  /** How many leading lines the scanner delivers before one that does not fit. */
  function FitPrefix(lines: seq<string>): (n: nat)
    ensures n <= |lines|
    ensures forall i :: 0 <= i < n ==> Fits(lines[i])
    ensures n < |lines| ==> !Fits(lines[n])
  {
    if lines == [] || !Fits(lines[0]) then 0 else 1 + FitPrefix(lines[1..])
  }

  /** The scanner at a written line. */
  lemma ScanFirst(line: string, rest: string)
    requires Plain(line)
    ensures Scan(line + [NL] + rest) ==
            if Fits(line) then Scanned([line] + Scan(rest).lines, Scan(rest).tooLong) else Scanned([], true)
  {
    FirstLine(line, rest);
    assert line[|line| - 1] in line;
    assert DropCR(line) == line;
  }

  /** Scanning a written file gives back its lines, up to the first that is too long. */
  lemma {:induction false} ScanUnlines(lines: seq<string>)
    requires AllPlain(lines)
    ensures Scan(Unlines(lines)) == Scanned(lines[..FitPrefix(lines)], FitPrefix(lines) < |lines|)
  {
    if lines != [] {
      var first, more := lines[0], lines[1..];
      ScanFirst(first, Unlines(more));
      ScanUnlines(more);
      FitFirst(lines);
    }
  }

  lemma FitFirst(lines: seq<string>)
    requires lines != []
    ensures if Fits(lines[0]) then FitPrefix(lines) == 1 + FitPrefix(lines[1..])
                                   && lines[..FitPrefix(lines)] == [lines[0]] + lines[1..][..FitPrefix(lines[1..])]
            else FitPrefix(lines) == 0
  {
  }
}
