/** From template text to tokens (ext/mstch: template_type.cpp, token.cpp, utils.cpp), with the default
    delimiters. Delimiter-change tags, and tags whose name the source computes from crossed iterators, are not
    part of this model: the tokenizer answers None for them. */
module MustacheTemplate {
  import opened Basics
  import MustacheNodes
  import opened Mustache

  // --- single tokens ---------------------------------------------------------------------------

  predicate IsBlank(c: char) {
    c == ' ' || c == '\r' || c == '\n' || c == '\t'
  }

  function TextToken(raw: string): (t: Token) {
    Token(TextKind, "", raw, "", raw != "" && raw[|raw| - 1] == '\n', forall i :: 0 <= i < |raw| ==> IsBlank(raw[i]))
  }

  /** The empty text pushed after a tag that ends the template: it terminates the last line. */
  const END_MARK := Token(TextKind, "", "", "", true, true)

  function KindOf(c: char): (k: Kind) {
    match c
    case '>' => Partial
    case '^' => InvertedOpen
    case '/' => SectionClose
    case '&' => Unescaped
    case '#' => SectionOpen
    case '!' => Comment
    case _ => Variable
  }

  /** First position of [from, stop) that is not a space, or stop. */
  function FirstNotSpace(s: string, from: nat, stop: nat): (i: nat)
    requires from <= stop <= |s|
    ensures from <= i <= stop
    decreases stop - from
  {
    if from == stop || s[from] != ' ' then from else FirstNotSpace(s, from + 1, stop)
  }

  /** One past the last position of [from, stop) that is not a space, or from. */
  function AfterLastNotSpace(s: string, from: nat, stop: nat): (i: nat)
    requires from <= stop <= |s|
    ensures from <= i <= stop
    decreases stop
  {
    if from == stop || s[stop - 1] != ' ' then stop else AfterLastNotSpace(s, from, stop - 1)
  }

  function Named(kind: Kind, raw: string, from: nat, stop: nat): (t: Option<Token>)
    requires from <= |raw| && stop <= |raw|
  {
    if from > stop then None else Some(Token(kind, raw[from..stop], raw, "", false, false))
  }

  /** A tag with its two-character delimiters. */
  function TagToken(raw: string): (t: Option<Token>)
    requires |raw| >= 4
    ensures t.Some? ==> t.value.raw == raw && !t.value.eol && !t.value.wsOnly && !t.value.kind.TextKind?
  {
    var n := |raw|;
    if raw[2] == '=' && raw[n - 3] == '=' then None
    else if raw[2] == '{' && raw[n - 3] == '}' && n >= 6 then
      Named(Unescaped, raw, FirstNotSpace(raw, 3, n - 2), AfterLastNotSpace(raw, 2, n - 3))
    else
      var c := FirstNotSpace(raw, 2, n - 2);
      var kind := KindOf(raw[c]);
      var from := if kind.Variable? || c == n - 2 then c else FirstNotSpace(raw, c + 1, n - 2);
      Named(kind, raw, from, AfterLastNotSpace(raw, 2, n - 2))
  }

  /** What each sigil stands for. */
  const SIGILS: map<char, Kind> := map[
    '#' := SectionOpen, '^' := InvertedOpen, '/' := SectionClose, '&' := Unescaped, '!' := Comment, '>' := Partial]

  /** A tag with a sigil is read back: its kind from the sigil, its name without the spaces around it. */
  lemma SigilTagReadsBack(raw: string, from: nat, stop: nat)
    requires 3 <= from < stop && stop + 2 <= |raw| && raw[2] in SIGILS
    requires raw[from] != ' ' && raw[stop - 1] != ' '
    requires forall k :: 3 <= k < from ==> raw[k] == ' '
    requires forall k :: stop <= k < |raw| - 2 ==> raw[k] == ' '
    ensures TagToken(raw) == Some(Token(SIGILS[raw[2]], raw[from..stop], raw, "", false, false))
  {
    var n := |raw|;
    FirstNotSpaceAt(raw, 2, 2, n - 2);
    FirstNotSpaceAt(raw, 3, from, n - 2);
    AfterLastNotSpaceAt(raw, 2, stop, n - 2);
  }

  lemma {:induction false} FirstNotSpaceAt(s: string, from: nat, at: nat, stop: nat)
    requires from <= at < stop <= |s| && s[at] != ' ' && forall k :: from <= k < at ==> s[k] == ' '
    ensures FirstNotSpace(s, from, stop) == at
    decreases at - from
  {
    if from < at {
      FirstNotSpaceAt(s, from + 1, at, stop);
    }
  }

  lemma {:induction false} AfterLastNotSpaceAt(s: string, from: nat, at: nat, stop: nat)
    requires from < at <= stop <= |s| && s[at - 1] != ' ' && forall k :: at <= k < stop ==> s[k] == ' '
    ensures AfterLastNotSpace(s, from, stop) == at
    decreases stop
  {
    if at < stop {
      AfterLastNotSpaceAt(s, from, at, stop - 1);
    }
  }

  // --- tokenizing ------------------------------------------------------------------------------

  /** Text split after each newline. */
  function TextTokens(s: string, from: nat, stop: nat): (ts: seq<Token>)
    requires from <= stop <= |s|
    decreases stop - from
  {
    if from == stop then []
    else
      var end := LineEnd(s, from, stop);
      [TextToken(s[from..end])] + TextTokens(s, end, stop)
  }

  /** One past the first newline of [from, stop), or stop. */
  function LineEnd(s: string, from: nat, stop: nat): (end: nat)
    requires from < stop <= |s|
    ensures from < end <= stop
    decreases stop - from
  {
    if s[from] == '\n' || from + 1 == stop then from + 1 else LineEnd(s, from + 1, stop)
  }

  predicate PairAt(s: string, c: char, i: nat) {
    i + 1 < |s| && s[i] == c && s[i + 1] == c
  }

  /** First position at or after from where c stands twice, or |s|. */
  function FindPair(s: string, c: char, from: nat): (i: nat)
    requires from <= |s|
    ensures from <= i <= |s|
    ensures i < |s| ==> PairAt(s, c, i)
    ensures forall k :: from <= k < i ==> !PairAt(s, c, k)
    decreases |s| - from
  {
    if from + 1 >= |s| then |s|
    else if PairAt(s, c, from) then from
    else FindPair(s, c, from + 1)
  }

  /** Where the next tag starts and one past where it ends, if there is one. */
  function NextTag(s: string, cur: nat): (tag: Option<(nat, nat)>)
    requires cur <= |s|
    ensures tag.Some? ==> cur <= tag.value.0 && tag.value.0 + 4 <= tag.value.1 <= |s|
  {
    var open := FindPair(s, '{', cur);
    if open == |s| then None
    else
      var close := FindPair(s, '}', open + 1);
      if close == |s| then None
      else if s[open + 2] == '{' && close + 2 < |s| && s[close + 2] == '}' then Some((open, close + 3))
      else Some((open, close + 2))
  }

  /** The next tag starts at the first opening delimiter and ends with the first closing one behind it, taking
      one more brace if it was opened with three and one follows. */
  lemma NextTagIsFirst(s: string, cur: nat, open: nat, end: nat)
    requires cur <= |s| && NextTag(s, cur) == Some((open, end))
    ensures PairAt(s, '{', open) && forall k :: cur <= k < open ==> !PairAt(s, '{', k)
    ensures end >= open + 4 && PairAt(s, '}', end - 2)
    ensures var close := if PairAt(s, '}', end - 3) && end >= open + 5 then end - 3 else end - 2;
            && (forall k :: open + 2 <= k < close ==> !PairAt(s, '}', k))
            && (close == end - 3 ==> s[open + 2] == '{')
            && (close == end - 2 && s[open + 2] == '{' ==> end == |s| || s[end] != '}')
  {
  }

  /** Wherever a closing delimiter follows an opening one, there is a next tag. */
  lemma NextTagExists(s: string, cur: nat, i: nat, j: nat)
    requires cur <= i && i + 2 <= j && PairAt(s, '{', i) && PairAt(s, '}', j)
    ensures NextTag(s, cur).Some?
  {
  }

  /** What one tag adds: the text before it, the tag, and the end mark if it ends the template. */
  function Chunk(s: string, cur: nat, open: nat, end: nat): (ts: Option<seq<Token>>)
    requires cur <= open && open + 4 <= end <= |s|
  {
    var t := TagToken(s[open..end]);
    if t.None? then None
    else Some(TextTokens(s, cur, open) + [t.value] + (if end == |s| then [END_MARK] else []))
  }

  /** The cursor loop, appending to out. */
  function Tokens(s: string, cur: nat, out: seq<Token>): (ts: Option<seq<Token>>)
    requires cur <= |s|
    decreases |s| - cur
  {
    if cur == |s| then Some(out)
    else
      var tag := NextTag(s, cur);
      if tag.None? then Some(out + TextTokens(s, cur, |s|))
      else
        var chunk := Chunk(s, cur, tag.value.0, tag.value.1);
        if chunk.None? then None else Tokens(s, tag.value.1, out + chunk.value)
  }

  method ProcessText(s: string, from: nat, stop: nat) returns (ts: seq<Token>)
    requires from <= stop <= |s|
    ensures ts == TextTokens(s, from, stop)
  {
    ts := [];
    var start := from;
    var it := from;
    while it < stop
      invariant from <= start <= it <= stop
      invariant it == stop ==> start == stop
      invariant start < stop ==> LineEnd(s, start, stop) == LineEnd(s, it, stop)
      invariant ts + TextTokens(s, start, stop) == TextTokens(s, from, stop)
    {
      if s[it] == '\n' || it == stop - 1 {
        ts := ts + [TextToken(s[start..it + 1])];
        start := it + 1;
      }
      it := it + 1;
    }
  }

  method Tokenize(s: string) returns (ts: Option<seq<Token>>)
    ensures ts == Tokens(s, 0, [])
  {
    var out: seq<Token> := [];
    var cur := 0;
    while cur < |s|
      invariant cur <= |s|
      invariant Tokens(s, 0, []) == Tokens(s, cur, out)
    {
      var tag := NextTag(s, cur);
      if tag.None? {
        var text := ProcessText(s, cur, |s|);
        return Some(out + text);
      }
      var (open, end) := tag.value;
      var text := ProcessText(s, cur, open);
      var t := TagToken(s[open..end]);
      if t.None? {
        return None;
      }
      out := out + (text + [t.value] + (if end == |s| then [END_MARK] else []));
      cur := end;
    }
    return Some(out);
  }

  function Raw(ts: seq<Token>): (s: string) {
    if ts == [] then "" else ts[0].raw + Raw(ts[1..])
  }

  lemma {:induction false} RawAppend(a: seq<Token>, b: seq<Token>)
    ensures Raw(a + b) == Raw(a) + Raw(b)
    decreases |a|
  {
    if a == [] {
      assert a + b == b;
    } else {
      RawAppend(a[1..], b);
      assert (a + b)[0] == a[0] && (a + b)[1..] == a[1..] + b;
    }
  }

  lemma {:induction false} TextIsLossless(s: string, from: nat, stop: nat)
    requires from <= stop <= |s|
    ensures Raw(TextTokens(s, from, stop)) == s[from..stop]
    decreases stop - from
  {
    if from < stop {
      var end := LineEnd(s, from, stop);
      TextIsLossless(s, end, stop);
      assert s[from..end] + s[end..stop] == s[from..stop];
    }
  }

  lemma ChunkIsLossless(s: string, cur: nat, open: nat, end: nat)
    requires cur <= open && open + 4 <= end <= |s| && Chunk(s, cur, open, end).Some?
    ensures Raw(Chunk(s, cur, open, end).value) == s[cur..end]
  {
    var text, t := TextTokens(s, cur, open), TagToken(s[open..end]).value;
    var mark := if end == |s| then [END_MARK] else [];
    TextIsLossless(s, cur, open);
    RawAppend(text, [t]);
    RawAppend(text + [t], mark);
    assert Raw([t]) == t.raw + Raw([]);
    assert Raw(mark) == "";
    assert s[cur..open] + s[open..end] == s[cur..end];
  }

  lemma {:induction false} TokensAreLossless(s: string, cur: nat, out: seq<Token>)
    requires cur <= |s| && Tokens(s, cur, out).Some?
    ensures Raw(Tokens(s, cur, out).value) == Raw(out) + s[cur..]
    decreases |s| - cur
  {
    hide TextTokens, Chunk, NextTag, Raw;
    if cur < |s| {
      var tag := NextTag(s, cur);
      if tag.None? {
        TextIsLossless(s, cur, |s|);
        RawAppend(out, TextTokens(s, cur, |s|));
        assert s[cur..|s|] == s[cur..];
      } else {
        var (open, end) := tag.value;
        var chunk := Chunk(s, cur, open, end).value;
        ChunkIsLossless(s, cur, open, end);
        RawAppend(out, chunk);
        TokensAreLossless(s, end, out + chunk);
        assert s[cur..end] + s[end..] == s[cur..];
      }
    } else {
      assert Raw(out) + s[cur..] == Raw(out);
    }
  }

  /** The raw tokens concatenate to the template. */
  lemma TokenizingIsLossless(s: string)
    ensures Tokens(s, 0, []).Some? ==> Raw(Tokens(s, 0, []).value) == s
  {
    if Tokens(s, 0, []).Some? {
      TokensAreLossless(s, 0, []);
      assert "" + s[0..] == s;
    }
  }

  // --- text to output --------------------------------------------------------------------------

  /** mstch::render without partials: tokenize, strip, feed the tokens under the root node. */
  function RenderedText(escape: string -> string, template: string, root: MustacheNodes.Node): (output: Option<string>) {
    var tokens := Tokens(template, 0, []);
    if tokens.None? then None else Some(Stream(escape, Strip(tokens.value), [root], Outside))
  }

  // --- standalone lines ------------------------------------------------------------------------

  /** Tags that may stand alone on a line: everything but text and variables. */
  predicate IsTag(t: Token) {
    !t.kind.TextKind? && !t.kind.Variable? && !t.kind.Unescaped?
  }

  /** Only text ends a line or counts as white space. */
  predicate TokenOk(t: Token) {
    (t.eol || t.wsOnly) ==> t.kind.TextKind?
  }

  /** Position of the first end of line, or |ts|. */
  function FirstEol(ts: seq<Token>, from: nat): (i: nat)
    requires from <= |ts|
    ensures from <= i <= |ts| && (i < |ts| ==> ts[i].eol)
    ensures forall k :: from <= k < i ==> !ts[k].eol
    decreases |ts| - from
  {
    if from == |ts| || ts[from].eol then from else FirstEol(ts, from + 1)
  }

  /** A line with a tag and otherwise only white space. */
  predicate Standalone(line: seq<Token>) {
    && (exists i :: 0 <= i < |line| && IsTag(line[i]))
    && (forall i :: 0 <= i < |line| ==> IsTag(line[i]) || line[i].wsOnly)
  }

  /** A partial on a standalone line remembers the white space before it. */
  function WithPrefix(line: seq<Token>, i: nat): (t: Token)
    requires i < |line|
  {
    if line[i].kind.Partial? && i > 0 && line[i - 1].wsOnly then line[i].(prefix := line[i - 1].raw) else line[i]
  }

  function WithPrefixes(line: seq<Token>): (out: seq<Token>)
    ensures |out| == |line| && forall i :: 0 <= i < |line| ==> out[i] == WithPrefix(line, i)
  {
    seq(|line|, i requires 0 <= i < |line| => WithPrefix(line, i))
  }

  function NonBlank(ts: seq<Token>): (out: seq<Token>) {
    if ts == [] then []
    else if ts[0].wsOnly then NonBlank(ts[1..])
    else [ts[0]] + NonBlank(ts[1..])
  }

  function StripLine(line: seq<Token>): (out: seq<Token>) {
    if Standalone(line) then NonBlank(WithPrefixes(line)) else line
  }

  /** White space removed line by line; the last line is left alone when nothing terminates it. */
  function Strip(ts: seq<Token>): (out: seq<Token>)
    decreases |ts|
  {
    var k := FirstEol(ts, 0);
    if k == |ts| then ts else StripLine(ts[..k + 1]) + Strip(ts[k + 1..])
  }
}
