/** Counting the lines that moved between two prompt bodies (`internal/diff/linediff.go`).

    The counts come from a longest-common-subsequence table filled backwards. The table is
    specified by what a common subsequence is, and the counts by what an edit script is. */
module LineDiff {

  // ---- Splitting a body into lines ----

  function UnifyNewlines(s: string): string {
    if s == "" then ""
    else if |s| >= 2 && s[0] == '\r' && s[1] == '\n' then "\n" + UnifyNewlines(s[2..])
    else [s[0]] + UnifyNewlines(s[1..])
  }

  function TrimNewline(s: string): string {
    if s != "" && s[|s| - 1] == '\n' then s[..|s| - 1] else s
  }

  /** A body up to line-ending style and one final newline. */
  function Normal(s: string): string {
    TrimNewline(UnifyNewlines(s))
  }

  function Split(s: string): (lines: seq<string>)
    ensures |lines| >= 1
  {
    if s == "" then [""]
    else if s[0] == '\n' then [""] + Split(s[1..])
    else
      var rest := Split(s[1..]);
      [[s[0]] + rest[0]] + rest[1..]
  }

  function Join(lines: seq<string>): string
    requires |lines| >= 1
  {
    if |lines| == 1 then lines[0] else lines[0] + "\n" + Join(lines[1..])
  }

  function SplitLines(s: string): seq<string> {
    var n := Normal(s);
    if n == "" then [] else Split(n)
  }

  lemma {:induction false} JoinSplit(s: string)
    ensures Join(Split(s)) == s
  {
    if s != "" {
      JoinSplit(s[1..]);
      JoinChar(s[0], Split(s[1..]));
      JoinEmptyLine(Split(s[1..]));
      assert s == [s[0]] + s[1..];
    }
  }

  lemma FourParts(c: string, line: string, rest: string)
    ensures (c + line) + "\n" + rest == c + (line + "\n" + rest)
  {
  }

  lemma JoinChar(c: char, rest: seq<string>)
    requires |rest| > 0
    ensures Join([[c] + rest[0]] + rest[1..]) == [c] + Join(rest)
  {
    var lines := [[c] + rest[0]] + rest[1..];
    assert lines[0] == [c] + rest[0] && lines[1..] == rest[1..];
    if |rest| > 1 {
      var j := Join(rest[1..]);
      assert Join(lines) == ([c] + rest[0]) + "\n" + j;
      assert Join(rest) == rest[0] + "\n" + j;
      FourParts([c], rest[0], j);
    }
  }

  lemma JoinEmptyLine(rest: seq<string>)
    requires |rest| > 0
    ensures Join([""] + rest) == "\n" + Join(rest)
  {
    var lines := [""] + rest;
    assert lines[0] == "" && lines[1..] == rest;
    assert Join(lines) == "" + "\n" + Join(rest);
  }

  /** Two bodies have the same lines exactly when they agree up to line endings and one final newline. */
  lemma SameLines(a: string, b: string)
    ensures SplitLines(a) == SplitLines(b) <==> Normal(a) == Normal(b)
  {
    JoinSplit(Normal(a));
    JoinSplit(Normal(b));
  }

  // ---- Text as lines ----

  /** A line of text: no line feed in it, and no carriage return at its end. */
  predicate IsLine(line: string) { '\n' !in line && (line == "" || line[|line| - 1] != '\r') }

  ghost predicate AreLines(lines: seq<string>) { forall i :: 0 <= i < |lines| ==> IsLine(lines[i]) }

  /** Lines as text, each ended in one of the two ways. */
  function Ended(lines: seq<string>, crlf: seq<bool>): string
    requires |lines| == |crlf|
  {
    if lines == [] then "" else lines[0] + (if crlf[0] then "\r\n" else "\n") + Ended(lines[1..], crlf[1..])
  }

  lemma {:induction false} UnifyLine(line: string, crlf: bool, rest: string)
    requires IsLine(line)
    ensures UnifyNewlines(line + (if crlf then "\r\n" else "\n") + rest) == line + "\n" + UnifyNewlines(rest)
  {
    var s := line + (if crlf then "\r\n" else "\n") + rest;
    if line == "" {
      assert s[if crlf then 2 else 1..] == rest;
    } else {
      assert s[1..] == line[1..] + (if crlf then "\r\n" else "\n") + rest;
      assert line[0] in line;
      assert |line| > 1 ==> line[1] in line && s[1] == line[1];
      UnifyLine(line[1..], crlf, rest);
    }
  }

  lemma {:induction false} UnifyEnded(lines: seq<string>, crlf: seq<bool>)
    requires |lines| == |crlf| > 0 && AreLines(lines)
    ensures UnifyNewlines(Ended(lines, crlf)) == Join(lines) + "\n"
  {
    UnifyLine(lines[0], crlf[0], Ended(lines[1..], crlf[1..]));
    if |lines| > 1 {
      UnifyEnded(lines[1..], crlf[1..]);
    }
  }

  lemma {:induction false} SplitLine(line: string)
    requires '\n' !in line
    ensures Split(line) == [line]
    ensures forall rest :: Split(line + "\n" + rest) == [line] + Split(rest)
  {
    forall rest
      ensures Split(line + "\n" + rest) == [line] + Split(rest)
    {
      SplitBefore(line, rest);
    }
    if line != "" {
      assert line[0] in line;
      SplitLine(line[1..]);
      assert [line[0]] + line[1..] == line;
    }
  }

  lemma {:induction false} SplitBefore(line: string, rest: string)
    requires '\n' !in line
    ensures Split(line + "\n" + rest) == [line] + Split(rest)
  {
    var s := line + "\n" + rest;
    if line == "" {
      assert s[1..] == rest;
    } else {
      assert line[0] in line && s[1..] == line[1..] + "\n" + rest;
      SplitBefore(line[1..], rest);
      assert [line[0]] + line[1..] == line;
    }
  }

  lemma {:induction false} SplitJoin(lines: seq<string>)
    requires |lines| > 0 && AreLines(lines)
    ensures Split(Join(lines)) == lines
  {
    SplitLine(lines[0]);
    if |lines| > 1 {
      SplitJoin(lines[1..]);
    }
  }

  /** Text is compared by the lines it was written as, whichever way each of them ends; one empty line counts as no text. */
  lemma LinesReadBack(lines: seq<string>, crlf: seq<bool>)
    requires |lines| == |crlf| > 0 && AreLines(lines)
    ensures SplitLines(Ended(lines, crlf)) == if lines == [""] then [] else lines
  {
    UnifyEnded(lines, crlf);
    SplitJoin(lines);
    JoinIsEmpty(lines);
    assert (Join(lines) + "\n")[..|Join(lines)|] == Join(lines);
  }

  lemma JoinIsEmpty(lines: seq<string>)
    requires |lines| > 0
    ensures Join(lines) == "" <==> lines == [""]
  {
  }

  // ---- Common subsequences ----

  ghost predicate Subsequence<T>(c: seq<T>, s: seq<T>) {
    c == [] || (s != [] && ((c[0] == s[0] && Subsequence(c[1..], s[1..])) || Subsequence(c, s[1..])))
  }

  /** The table entry for two suffixes. */
  function LcsLength<T(==)>(a: seq<T>, b: seq<T>): nat {
    if a == [] || b == [] then 0
    else if a[0] == b[0] then LcsLength(a[1..], b[1..]) + 1
    else if LcsLength(a[1..], b) >= LcsLength(a, b[1..]) then LcsLength(a[1..], b)
    else LcsLength(a, b[1..])
  }

  lemma {:induction false} SubsequenceDrop<T>(c: seq<T>, s: seq<T>)
    requires c != [] && Subsequence(c, s)
    ensures s != [] && Subsequence(c[1..], s[1..])
  {
    if !(c[0] == s[0] && Subsequence(c[1..], s[1..])) {
      SubsequenceDrop(c, s[1..]);
      assert Subsequence(c[1..], s[1..][1..]);
    }
  }

  /** No common subsequence is longer than the table entry. */
  lemma {:induction false} LcsIsMaximal<T>(c: seq<T>, a: seq<T>, b: seq<T>)
    requires Subsequence(c, a) && Subsequence(c, b)
    ensures |c| <= LcsLength(a, b)
    decreases |a| + |b|
  {
    if c != [] {
      SubsequenceDrop(c, a);
      SubsequenceDrop(c, b);
      if a[0] == b[0] {
        LcsIsMaximal(c[1..], a[1..], b[1..]);
      } else if c[0] != a[0] {
        LcsIsMaximal(c, a[1..], b);
      } else {
        LcsIsMaximal(c, a, b[1..]);
      }
    }
  }

  /** Some common subsequence is as long as the table entry. */
  lemma {:induction false} LcsIsReached<T>(a: seq<T>, b: seq<T>) returns (c: seq<T>)
    ensures Subsequence(c, a) && Subsequence(c, b)
    ensures |c| == LcsLength(a, b)
    decreases |a| + |b|
  {
    if a == [] || b == [] {
      c := [];
    } else if a[0] == b[0] {
      var rest := LcsIsReached(a[1..], b[1..]);
      c := [a[0]] + rest;
      assert c[1..] == rest;
    } else if LcsLength(a[1..], b) >= LcsLength(a, b[1..]) {
      c := LcsIsReached(a[1..], b);
    } else {
      c := LcsIsReached(a, b[1..]);
    }
  }

  // ---- Edit scripts ----

  datatype Edit<T> = Keep | Remove | Insert(line: T)

  /** The script consumes all of `a` and writes exactly `b`. */
  ghost predicate Turns<T>(script: seq<Edit<T>>, a: seq<T>, b: seq<T>) {
    if script == [] then a == [] && b == []
    else match script[0]
      case Keep => a != [] && b != [] && a[0] == b[0] && Turns(script[1..], a[1..], b[1..])
      case Remove => a != [] && Turns(script[1..], a[1..], b)
      case Insert(line) => b != [] && b[0] == line && Turns(script[1..], a, b[1..])
  }

  ghost function Insertions<T>(script: seq<Edit<T>>): nat {
    if script == [] then 0 else (if script[0].Insert? then 1 else 0) + Insertions(script[1..])
  }

  ghost function Removals<T>(script: seq<Edit<T>>): nat {
    if script == [] then 0 else (if script[0].Remove? then 1 else 0) + Removals(script[1..])
  }

  /** The lines a script keeps are common to both sides, and account for everything not removed or inserted. */
  lemma {:induction false} KeptLines<T>(script: seq<Edit<T>>, a: seq<T>, b: seq<T>) returns (kept: seq<T>)
    requires Turns(script, a, b)
    ensures Subsequence(kept, a) && Subsequence(kept, b)
    ensures |a| == Removals(script) + |kept| && |b| == Insertions(script) + |kept|
  {
    if script == [] {
      kept := [];
    } else {
      match script[0]
      case Keep =>
        var rest := KeptLines(script[1..], a[1..], b[1..]);
        kept := [a[0]] + rest;
        assert kept[1..] == rest;
      case Remove =>
        kept := KeptLines(script[1..], a[1..], b);
      case Insert(_) =>
        kept := KeptLines(script[1..], a, b[1..]);
    }
  }

  lemma {:induction false} BestScript<T>(a: seq<T>, b: seq<T>) returns (script: seq<Edit<T>>)
    ensures Turns(script, a, b)
    ensures Insertions(script) == |b| - LcsLength(a, b) && Removals(script) == |a| - LcsLength(a, b)
    decreases |a| + |b|
  {
    var first, rest: seq<Edit<T>>;
    if a == [] && b == [] {
      return [];
    } else if a == [] {
      first := Insert(b[0]);
      rest := BestScript(a, b[1..]);
    } else if b == [] {
      first := Remove;
      rest := BestScript(a[1..], b);
    } else if a[0] == b[0] {
      first := Keep;
      rest := BestScript(a[1..], b[1..]);
    } else if LcsLength(a[1..], b) >= LcsLength(a, b[1..]) {
      first := Remove;
      rest := BestScript(a[1..], b);
    } else {
      first := Insert(b[0]);
      rest := BestScript(a, b[1..]);
    }
    script := [first] + rest;
    assert script[1..] == rest;
  }

  /** `added` and `removed` are the fewest insertions and the fewest removals any script turning `a`
      into `b` can make, and one script makes both at once. */
  ghost predicate FewestEdits<T(!new)>(a: seq<T>, b: seq<T>, added: int, removed: int) {
    && (forall script :: Turns(script, a, b) ==> Insertions(script) >= added && Removals(script) >= removed)
    && (exists script :: Turns(script, a, b) && Insertions(script) == added && Removals(script) == removed)
  }

  lemma CountsAreFewest<T(!new)>(a: seq<T>, b: seq<T>)
    ensures FewestEdits(a, b, |b| - LcsLength(a, b), |a| - LcsLength(a, b))
  {
    forall script | Turns(script, a, b)
      ensures Insertions(script) >= |b| - LcsLength(a, b) && Removals(script) >= |a| - LcsLength(a, b)
    {
      var kept := KeptLines(script, a, b);
      LcsIsMaximal(kept, a, b);
    }
    var best := BestScript(a, b);
  }

  lemma {:induction false} NothingMovedMeansEqual<T>(a: seq<T>, b: seq<T>)
    ensures LcsLength(a, b) <= |a| && LcsLength(a, b) <= |b|
    ensures |a| == LcsLength(a, b) == |b| <==> a == b
    decreases |a| + |b|
  {
    if a != [] && b != [] {
      NothingMovedMeansEqual(a[1..], b[1..]);
      NothingMovedMeansEqual(a[1..], b);
      NothingMovedMeansEqual(a, b[1..]);
      assert a == [a[0]] + a[1..] && b == [b[0]] + b[1..];
    }
  }

  /** The table's rows after `i`, and the part of row `i` after `j`, hold the lengths for their suffixes. */
  ghost predicate Filled(lcs: array2<nat>, la: seq<string>, lb: seq<string>, i: int, j: int)
    requires lcs.Length0 == |la| + 1 && lcs.Length1 == |lb| + 1
    reads lcs
  {
    && (forall p, q {:trigger lcs[p, q]} :: 0 <= p <= |la| && 0 <= q <= |lb| && (p > i || (p == i && q > j)) ==>
         lcs[p, q] == LcsLength(la[p..], lb[q..]))
  }

  lemma LcsStep(la: seq<string>, lb: seq<string>, i: nat, j: nat)
    requires i < |la| && j < |lb|
    ensures LcsLength(la[i..], lb[j..]) ==
            if la[i] == lb[j] then LcsLength(la[i + 1..], lb[j + 1..]) + 1
            else if LcsLength(la[i + 1..], lb[j..]) >= LcsLength(la[i..], lb[j + 1..]) then LcsLength(la[i + 1..], lb[j..])
            else LcsLength(la[i..], lb[j + 1..])
  {
    assert la[i..][1..] == la[i + 1..] && lb[j..][1..] == lb[j + 1..];
  }

  method FillRow(lcs: array2<nat>, la: seq<string>, lb: seq<string>, i: nat)
    requires lcs.Length0 == |la| + 1 && lcs.Length1 == |lb| + 1 && i < |la|
    requires lcs[i, |lb|] == 0
    requires Filled(lcs, la, lb, i, |lb|)
    modifies lcs
    ensures Filled(lcs, la, lb, i, -1)
    ensures forall p :: 0 <= p < i ==> lcs[p, |lb|] == old(lcs[p, |lb|])
  {
    var j := |lb| - 1;
    while j >= 0
      invariant -1 <= j < |lb|
      invariant Filled(lcs, la, lb, i, j)
      invariant forall p :: 0 <= p < i ==> lcs[p, |lb|] == old(lcs[p, |lb|])
    {
      LcsStep(la, lb, i, j);
      if la[i] == lb[j] {
        lcs[i, j] := lcs[i + 1, j + 1] + 1;
      } else if lcs[i + 1, j] >= lcs[i, j + 1] {
        lcs[i, j] := lcs[i + 1, j];
      } else {
        lcs[i, j] := lcs[i, j + 1];
      }
      j := j - 1;
    }
  }

  method LineDiffCounts(a: string, b: string) returns (added: int, removed: int)
    ensures FewestEdits(SplitLines(a), SplitLines(b), added, removed)
    ensures added == 0 && removed == 0 <==> Normal(a) == Normal(b)
  {
    var la, lb := SplitLines(a), SplitLines(b);
    var lcs := new nat[|la| + 1, |lb| + 1]((_, _) => 0);
    var i := |la| - 1;
    while i >= 0
      invariant -1 <= i < |la|
      invariant Filled(lcs, la, lb, i, |lb|)
      invariant forall p :: 0 <= p <= i ==> lcs[p, |lb|] == 0
    {
      FillRow(lcs, la, lb, i);
      i := i - 1;
    }
    var common := lcs[0, 0];
    assert la[0..] == la && lb[0..] == lb;
    CountsAreFewest(la, lb);
    NothingMovedMeansEqual(la, lb);
    SameLines(a, b);
    added, removed := |lb| - common, |la| - common;
  }
}
