/** Splitting text into fields and lines, as split_tabs and std::getline do. */
module Text {
  import opened Basics

  predicate Free(s: string, c: char) {
    forall i :: 0 <= i < |s| ==> s[i] != c
  }

  /** Text that cannot be mistaken for a separator of a tab-separated file. */
  predicate Clean(s: string) {
    Free(s, '\t') && Free(s, '\n')
  }

  function Repeat(c: char, n: nat): (s: string)
    ensures |s| == n && forall i :: 0 <= i < n ==> s[i] == c
  {
    if n == 0 then "" else Repeat(c, n - 1) + [c]
  }

  /** Position of the first c at or after from, or |s|. */
  function Find(s: string, c: char, from: nat): (i: nat)
    requires from <= |s|
    ensures from <= i <= |s| && (i < |s| ==> s[i] == c)
    ensures forall k :: from <= k < i ==> s[k] != c
    decreases |s| - from
  {
    if from == |s| || s[from] == c then from else Find(s, c, from + 1)
  }

  /** All pieces between separators; a text without one is a single piece. */
  function Split(s: string, c: char, from: nat): (parts: seq<string>)
    requires from <= |s|
    ensures parts != [] && forall i :: 0 <= i < |parts| ==> Free(parts[i], c)
    decreases |s| - from
  {
    var end := Find(s, c, from);
    if end == |s| then [s[from..]] else [s[from..end]] + Split(s, c, end + 1)
  }

  method SplitTabs(line: string) returns (parts: seq<string>)
    ensures parts == Split(line, '\t', 0)
  {
    parts := [];
    var start := 0;
    while true
      invariant start <= |line|
      invariant parts + Split(line, '\t', start) == Split(line, '\t', 0)
      decreases |line| - start
    {
      var end := Find(line, '\t', start);
      if end == |line| {
        parts := parts + [line[start..]];
        return;
      }
      parts := parts + [line[start..end]];
      start := end + 1;
    }
  }

  function Join(parts: seq<string>, c: char): (s: string)
    requires parts != []
  {
    if |parts| == 1 then parts[0] else parts[0] + [c] + Join(parts[1..], c)
  }

  /** A piece free of c, found between a prefix and a separator or the end. */
  lemma PieceAt(prefix: string, piece: string, rest: string, c: char)
    requires Free(piece, c) && (rest == "" || rest[0] == c)
    ensures var s := prefix + piece + rest;
            Find(s, c, |prefix|) == |prefix| + |piece| && s[|prefix|..|prefix| + |piece|] == piece
  {
    var s := prefix + piece + rest;
    var end := |prefix| + |piece|;
    assert forall k :: |prefix| <= k < end ==> s[k] == piece[k - |prefix|];
    assert rest != "" ==> s[end] == rest[0];
  }

  lemma SplitPiece(prefix: string, piece: string, rest: string, c: char)
    requires Free(piece, c)
    ensures Split(prefix + piece, c, |prefix|) == [piece]
    ensures var s := prefix + piece + ([c] + rest);
            Split(s, c, |prefix|) == [piece] + Split(s, c, |prefix| + |piece| + 1)
  {
    hide Find, Free;
    PieceAt(prefix, piece, "", c);
    EmptyRight(prefix + piece);
    PieceAt(prefix, piece, [c] + rest, c);
  }

  lemma {:induction false} SplitOfJoin(prefix: string, parts: seq<string>, c: char)
    requires parts != [] && forall i :: 0 <= i < |parts| ==> Free(parts[i], c)
    ensures Split(prefix + Join(parts, c), c, |prefix|) == parts
    decreases |parts|
  {
    hide Split, Free;
    var head := parts[0];
    HeadTail(parts);
    if |parts| == 1 {
      SplitPiece(prefix, head, "", c);
      EmptyRight([head]);
    } else {
      var rest := Join(parts[1..], c);
      SplitPiece(prefix, head, rest, c);
      Assoc(prefix, head + [c], rest);
      Assoc(prefix, head, [c]);
      Assoc(prefix + head, [c], rest);
      SplitOfJoin(prefix + head + [c], parts[1..], c);
    }
  }

  /** What successive getline calls return from the position on. */
  function Lines(s: string, from: nat): (lines: seq<string>)
    requires from <= |s|
    ensures forall i :: 0 <= i < |lines| ==> Free(lines[i], '\n')
    decreases |s| - from
  {
    if from == |s| then []
    else
      var end := Find(s, '\n', from);
      if end == |s| then [s[from..]] else [s[from..end]] + Lines(s, end + 1)
  }

  function Unlines(lines: seq<string>): (s: string)
  {
    if lines == [] then "" else lines[0] + ['\n'] + Unlines(lines[1..])
  }

  lemma {:induction false} UnlinesAppend(lines: seq<string>, last: string)
    ensures Unlines(lines + [last]) == Unlines(lines) + last + "\n"
  {
    if lines != [] {
      UnlinesAppend(lines[1..], last);
      assert (lines + [last])[1..] == lines[1..] + [last];
      assert Unlines(lines + [last]) == lines[0] + "\n" + (Unlines(lines[1..]) + last + "\n");
    }
  }

  lemma LinesPiece(prefix: string, piece: string, rest: string)
    requires Free(piece, '\n')
    ensures var s := prefix + piece + (['\n'] + rest);
            Lines(s, |prefix|) == [piece] + Lines(s, |prefix| + |piece| + 1)
  {
    hide Find, Free;
    PieceAt(prefix, piece, ['\n'] + rest, '\n');
  }

  lemma NoLines(prefix: string)
    ensures Lines(prefix + "", |prefix|) == []
  {
  }

  lemma {:induction false} LinesOfUnlines(prefix: string, lines: seq<string>)
    requires forall i :: 0 <= i < |lines| ==> Free(lines[i], '\n')
    ensures Lines(prefix + Unlines(lines), |prefix|) == lines
    decreases |lines|
  {
    hide Lines, Free;
    if lines == [] {
      NoLines(prefix);
    } else {
      var head, rest := lines[0], Unlines(lines[1..]);
      HeadTail(lines);
      LinesPiece(prefix, head, rest);
      Assoc(prefix, head + ['\n'], rest);
      Assoc(prefix, head, ['\n']);
      Assoc(prefix + head, ['\n'], rest);
      LinesOfUnlines(prefix + head + ['\n'], lines[1..]);
    }
  }
}
