/** Templates as text: what the tokenizer makes of printed tokens, and what the usual tags print. */
module MustacheText {
  import opened Basics
  import opened Decimal
  import opened Text
  import opened MustacheNodes
  import opened Mustache
  import opened MustacheTemplate

  // --- printed tokens --------------------------------------------------------------------------

  predicate NoBraces(s: string) {
    Free(s, '{') && Free(s, '}')
  }

  /** A name that is nothing but a name: no braces, no sigil or equals sign in front, no spaces around. */
  predicate PlainName(n: string) {
    && n != "" && NoBraces(n) && n[0] !in SIGILS && n[0] != '=' && n[0] != ' ' && n[|n| - 1] != ' '
  }

  /** How a tag is written between its braces. */
  function Inner(kind: Kind, name: string): (s: string) {
    match kind
    case SectionOpen => "#" + name
    case InvertedOpen => "^" + name
    case SectionClose => "/" + name
    case Unescaped => "&" + name
    case Comment => "!" + name
    case Partial => ">" + name
    case _ => name
  }

  function Tag(kind: Kind, name: string): (t: Token) {
    Token(kind, name, "{{" + Inner(kind, name) + "}}", "", false, false)
  }

  function TripleTag(name: string): (t: Token) {
    Token(Unescaped, name, "{{{" + name + "}}}", "", false, false)
  }

  predicate PrintedTag(t: Token) {
    && PlainName(t.name)
    && ((t == Tag(t.kind, t.name) && !t.kind.TextKind? && !t.kind.DelimiterChange?) || t == TripleTag(t.name))
  }

  /** Text without braces that ends at its first newline, if it has one. */
  predicate PrintedText(t: Token) {
    && t == TextToken(t.raw) && t.raw != "" && NoBraces(t.raw)
    && forall k :: 0 <= k < |t.raw| - 1 ==> t.raw[k] != '\n'
  }

  /** Tokens as the tokenizer cuts them: text that goes on in another text token ends in a newline. */
  ghost predicate Printed(ts: seq<Token>) {
    && (forall i :: 0 <= i < |ts| ==> PrintedTag(ts[i]) || PrintedText(ts[i]))
    && (forall i, j :: 0 <= i < j < |ts| && j == i + 1 && PrintedText(ts[i]) && PrintedText(ts[j]) ==> ts[i].eol)
  }

  // --- tags ------------------------------------------------------------------------------------

  lemma VariableReadsBack(name: string)
    requires PlainName(name)
    ensures TagToken(Tag(Variable, name).raw) == Some(Tag(Variable, name))
  {
    var raw := "{{" + name + "}}";
    var n := |raw|;
    assert raw[2] == name[0] && raw[n - 3] == name[|name| - 1];
    FirstNotSpaceAt(raw, 2, 2, n - 2);
    AfterLastNotSpaceAt(raw, 2, n - 2, n - 2);
    assert raw[2..n - 2] == name;
  }

  lemma TripleReadsBack(name: string)
    requires PlainName(name)
    ensures TagToken(TripleTag(name).raw) == Some(TripleTag(name))
  {
    var raw := "{{{" + name + "}}}";
    var n := |raw|;
    assert raw[3] == name[0] && raw[n - 4] == name[|name| - 1] && raw[2] == '{' && raw[n - 3] == '}';
    FirstNotSpaceAt(raw, 3, 3, n - 2);
    AfterLastNotSpaceAt(raw, 2, n - 3, n - 3);
    assert raw[3..n - 3] == name;
  }

  lemma SigilReadsBack(sigil: char, name: string)
    requires PlainName(name) && sigil in SIGILS
    ensures var raw := "{{" + ([sigil] + name) + "}}";
            TagToken(raw) == Some(Token(SIGILS[sigil], name, raw, "", false, false))
  {
    var raw := "{{" + ([sigil] + name) + "}}";
    var n := |raw|;
    assert raw[2] == sigil && raw[3] == name[0] && raw[n - 3] == name[|name| - 1];
    SigilTagReadsBack(raw, 3, n - 2);
    assert raw[3..n - 2] == name;
  }

  /** A printed tag reads back, and its text has two braces around something without any, or three. */
  lemma TagReadsBack(t: Token)
    requires PrintedTag(t)
    ensures |t.raw| >= 5 && TagToken(t.raw) == Some(t)
  {
    hide TagToken;
    match t.kind
    case SectionOpen => SigilReadsBack('#', t.name);
    case InvertedOpen => SigilReadsBack('^', t.name);
    case SectionClose => SigilReadsBack('/', t.name);
    case Comment => SigilReadsBack('!', t.name);
    case Partial => SigilReadsBack('>', t.name);
    case Variable => VariableReadsBack(t.name);
    case Unescaped =>
      SigilReadsBack('&', t.name);
      TripleReadsBack(t.name);
  }

  /** Where the next tag is: behind text without an opening brace, in the text of a printed tag. */
  lemma NextTagIsPrinted(s: string, cur: nat, open: nat, t: Token)
    requires PrintedTag(t) && cur <= open && open + |t.raw| <= |s| && s[open..open + |t.raw|] == t.raw
    requires forall k :: cur <= k < open ==> s[k] != '{'
    ensures NextTag(s, cur) == Some((open, open + |t.raw|))
  {
    hide NextTag, Tag, TripleTag;
    if t == TripleTag(t.name) {
      TripleBraces(t.name);
      NextTagAt(s, cur, open, t.raw, |t.raw| - 3);
    } else {
      DoubleBraces(t.kind, t.name);
      NextTagAt(s, cur, open, t.raw, |t.raw| - 2);
    }
  }

  lemma NextTagAt(s: string, cur: nat, open: nat, raw: string, close: nat)
    requires cur <= open && open + |raw| <= |s| && s[open..open + |raw|] == raw && 3 <= close && close + 2 <= |raw|
    requires raw[0] == raw[1] == '{' && raw[close] == raw[close + 1] == '}'
    requires if raw[2] == '{' then |raw| == close + 3 && raw[close + 2] == '}' else |raw| == close + 2
    requires forall k :: cur <= k < open ==> s[k] != '{'
    requires forall k :: 1 <= k < close ==> raw[k] != '}'
    ensures NextTag(s, cur) == Some((open, open + |raw|))
  {
    hide PairAt, FindPair;
    PairsOfTag(s, cur, open, raw, close);
    assert s[open + 2] == s[open..open + |raw|][2];
    assert raw[2] == '{' ==> s[open + close + 2] == s[open..open + |raw|][close + 2];
  }

  lemma PairsOfTag(s: string, cur: nat, open: nat, raw: string, close: nat)
    requires cur <= open && open + |raw| <= |s| && s[open..open + |raw|] == raw && 2 <= close && close + 2 <= |raw|
    requires raw[0] == raw[1] == '{' && raw[close] == raw[close + 1] == '}'
    requires forall k :: cur <= k < open ==> s[k] != '{'
    requires forall k :: 1 <= k < close ==> raw[k] != '}'
    ensures FindPair(s, '{', cur) == open && FindPair(s, '}', open + 1) == open + close
  {
    assert forall k :: 0 <= k < |raw| ==> s[open + k] == raw[k];
    assert PairAt(s, '{', open) && PairAt(s, '}', open + close);
    forall k | open + 1 <= k < open + close ensures !PairAt(s, '}', k) {
      assert s[open + (k - open)] == raw[k - open];
    }
  }

  lemma DoubleBraces(kind: Kind, name: string)
    requires PlainName(name)
    ensures var raw := Tag(kind, name).raw;
            && |raw| >= 5 && raw[0] == raw[1] == '{' && raw[|raw| - 2] == raw[|raw| - 1] == '}'
            && raw[2] != '{' && forall k :: 1 <= k < |raw| - 2 ==> raw[k] != '}'
  {
    var inner := Inner(kind, name);
    assert NoBraces(inner) && |inner| >= 1;
    var raw := "{{" + inner + "}}";
    assert forall k :: 2 <= k < |raw| - 2 ==> raw[k] == inner[k - 2];
  }

  lemma TripleBraces(name: string)
    requires PlainName(name)
    ensures var raw := TripleTag(name).raw;
            && |raw| >= 7 && raw[0] == raw[1] == raw[2] == '{'
            && raw[|raw| - 3] == raw[|raw| - 2] == raw[|raw| - 1] == '}'
            && forall k :: 1 <= k < |raw| - 3 ==> raw[k] != '}'
  {
    var raw := "{{{" + name + "}}}";
    assert forall k :: 3 <= k < |raw| - 3 ==> raw[k] == name[k - 3];
  }

  // --- text ------------------------------------------------------------------------------------

  lemma Cut(s: string, cur: nat, a: string, b: string)
    requires cur <= |s| && s[cur..] == a + b
    ensures cur + |a| <= |s| && s[cur..cur + |a|] == a && s[cur + |a|..] == b
  {
    assert |s[cur..]| == |a| + |b|;
    assert s[cur..cur + |a|] == s[cur..][..|a|] == a;
    assert s[cur + |a|..] == s[cur..][|a|..] == b;
  }

  predicate TextRun(ts: seq<Token>) {
    && (forall i :: 0 <= i < |ts| ==> PrintedText(ts[i]))
    && (forall i :: 0 <= i < |ts| - 1 ==> ts[i].eol)
  }

  lemma LineEndOfText(s: string, from: nat, stop: nat, raw: string)
    requires from < stop <= |s| && raw != "" && from + |raw| <= stop && s[from..from + |raw|] == raw
    requires forall k :: 0 <= k < |raw| - 1 ==> raw[k] != '\n'
    requires raw[|raw| - 1] == '\n' || from + |raw| == stop
    ensures LineEnd(s, from, stop) == from + |raw|
    decreases |raw|
  {
    assert s[from] == raw[0];
    if |raw| > 1 {
      assert s[from + 1..from + |raw|] == raw[1..];
      LineEndOfText(s, from + 1, stop, raw[1..]);
    }
  }

  /** A run of text is cut back into the same tokens. */
  lemma {:induction false} TextRunReadsBack(s: string, from: nat, ts: seq<Token>)
    requires TextRun(ts) && from + |Raw(ts)| <= |s| && s[from..from + |Raw(ts)|] == Raw(ts)
    ensures TextTokens(s, from, from + |Raw(ts)|) == ts
    ensures forall k :: from <= k < from + |Raw(ts)| ==> s[k] != '{'
    decreases |ts|
  {
    hide TextTokens, PrintedText;
    if ts == [] {
      NoText(s, from);
    } else {
      var raw, more := ts[0].raw, Raw(ts[1..]);
      var mid, stop := from + |raw|, from + |Raw(ts)|;
      assert s[from..mid] == Raw(ts)[..|raw|] == raw;
      assert s[mid..stop] == Raw(ts)[|raw|..] == more;
      TextRunReadsBack(s, mid, ts[1..]);
      if |ts| == 1 {
        NoRawOfEmpty(ts);
      }
      TextStep(s, from, stop, ts[0]);
      HeadTail(ts);
    }
  }

  lemma NoText(s: string, from: nat)
    requires from <= |s|
    ensures TextTokens(s, from, from) == []
  {
  }

  lemma NoRawOfEmpty(ts: seq<Token>)
    requires |ts| == 1
    ensures Raw(ts[1..]) == ""
  {
  }

  lemma TextStep(s: string, from: nat, stop: nat, t: Token)
    requires PrintedText(t) && from + |t.raw| <= stop <= |s| && s[from..from + |t.raw|] == t.raw
    requires t.eol || from + |t.raw| == stop
    ensures TextTokens(s, from, stop) == [t] + TextTokens(s, from + |t.raw|, stop)
    ensures forall k :: from <= k < from + |t.raw| ==> s[k] != '{'
  {
    LineEndOfText(s, from, stop, t.raw);
    FirstLine(s, from, from + |t.raw|, stop);
    assert forall k :: from <= k < from + |t.raw| ==> s[k] == t.raw[k - from];
  }

  lemma FirstLine(s: string, from: nat, mid: nat, stop: nat)
    requires from < stop <= |s| && mid == LineEnd(s, from, stop)
    ensures TextTokens(s, from, stop) == [TextToken(s[from..mid])] + TextTokens(s, mid, stop)
  {
    hide TextToken, LineEnd;
  }

  // --- tokens of a printed template ------------------------------------------------------------

  /** The mark the tokenizer adds behind a tag that ends the template. */
  function Mark(ts: seq<Token>): (m: seq<Token>) {
    if ts != [] && !ts[|ts| - 1].kind.TextKind? then [END_MARK] else []
  }

  function LeadingText(ts: seq<Token>): (k: nat)
    ensures k <= |ts| && (forall i :: 0 <= i < k ==> ts[i].kind.TextKind?) && (k < |ts| ==> !ts[k].kind.TextKind?)
  {
    if ts == [] || !ts[0].kind.TextKind? then 0 else 1 + LeadingText(ts[1..])
  }

  lemma KindsDiffer(t: Token)
    requires PrintedTag(t) || PrintedText(t)
    ensures PrintedText(t) <==> t.kind.TextKind?
    ensures PrintedTag(t) <==> !t.kind.TextKind?
    ensures t.raw != ""
  {
  }

  lemma {:induction false} RawNonempty(ts: seq<Token>)
    requires ts != [] && ts[0].raw != ""
    ensures Raw(ts) != ""
  {
  }

  lemma LeadingRun(ts: seq<Token>, k: nat)
    requires Printed(ts) && k == LeadingText(ts)
    ensures TextRun(ts[..k])
  {
    hide PrintedTag, PrintedText;
    forall i | 0 <= i < k ensures PrintedText(ts[i]) && (i < k - 1 ==> ts[i].eol) {
      KindsDiffer(ts[i]);
      if i < k - 1 {
        KindsDiffer(ts[i + 1]);
      }
    }
  }

  lemma PrintedTail(ts: seq<Token>, j: nat)
    requires Printed(ts) && j <= |ts|
    ensures Printed(ts[j..])
  {
    hide PrintedTag, PrintedText;
  }

  lemma AllText(s: string, cur: nat, out: seq<Token>, ts: seq<Token>)
    requires cur < |s| && TextTokens(s, cur, |s|) == ts && forall k :: cur <= k < |s| ==> s[k] != '{'
    ensures Tokens(s, cur, out) == Some(out + ts)
  {
    hide TextTokens;
  }

  lemma TagChunk(s: string, cur: nat, open: nat, end: nat, out: seq<Token>, run: seq<Token>, t: Token)
    requires cur <= open && open + 4 <= end <= |s| && NextTag(s, cur) == Some((open, end))
    requires TextTokens(s, cur, open) == run && TagToken(s[open..end]) == Some(t)
    ensures Tokens(s, cur, out) == Tokens(s, end, out + (run + [t] + (if end == |s| then [END_MARK] else [])))
  {
    hide TextTokens, TagToken, NextTag;
  }

  lemma MarkOfRest(out: seq<Token>, ts: seq<Token>, k: nat, mark: seq<Token>)
    requires k < |ts| && !ts[k].kind.TextKind? && mark == if k + 1 == |ts| then [END_MARK] else []
    ensures out + (ts[..k] + [ts[k]] + mark) + (ts[k + 1..] + Mark(ts[k + 1..])) == out + (ts + Mark(ts))
  {
    assert ts == ts[..k] + [ts[k]] + ts[k + 1..];
    if k + 1 == |ts| {
      assert ts[k + 1..] == [];
    } else {
      assert ts[k + 1..][|ts| - k - 2] == ts[|ts| - 1];
    }
  }

  /** Tokenizing the text of printed tokens gives those tokens back. */
  lemma {:induction false} TokensOfPrinted(s: string, cur: nat, out: seq<Token>, ts: seq<Token>)
    requires Printed(ts) && cur <= |s| && s[cur..] == Raw(ts)
    ensures Tokens(s, cur, out) == Some(out + (ts + Mark(ts)))
    decreases |ts|
  {
    hide Tokens, TextTokens, TagToken, NextTag, PrintedTag, PrintedText, Raw;
    if ts == [] {
      NoTokens(s, cur, out);
      return;
    }
    KindsDiffer(ts[0]);
    RawNonempty(ts);
    var k := LeadingText(ts);
    var run, tail := ts[..k], ts[k..];
    LeadingRun(ts, k);
    RawAppend(run, tail);
    assert ts == run + tail;
    Cut(s, cur, Raw(run), Raw(tail));
    TextRunReadsBack(s, cur, run);
    var open := cur + |Raw(run)|;
    if k == |ts| {
      NoRaw(tail);
      AllText(s, cur, out, ts);
      assert ts + Mark(ts) == ts;
    } else {
      TagFirst(s, cur, open, out, ts, k);
    }
  }

  lemma NoTokens(s: string, cur: nat, out: seq<Token>)
    requires cur <= |s| && s[cur..] == Raw([])
    ensures Tokens(s, cur, out) == Some(out + ([] + Mark([])))
  {
    assert cur == |s| && out + ([] + Mark([])) == out;
  }

  lemma NoRaw(ts: seq<Token>)
    requires ts == []
    ensures Raw(ts) == ""
  {
  }

  /** The step over the first tag, behind a run of text. */
  lemma {:induction false} TagFirst(s: string, cur: nat, open: nat, out: seq<Token>, ts: seq<Token>, k: nat)
    requires Printed(ts) && k < |ts| && !ts[k].kind.TextKind? && cur <= open <= |s| && s[open..] == Raw(ts[k..])
    requires TextTokens(s, cur, open) == ts[..k] && forall i :: cur <= i < open ==> s[i] != '{'
    ensures Tokens(s, cur, out) == Some(out + (ts + Mark(ts)))
    decreases |ts|, 0
  {
    hide Tokens, TextTokens, TagToken, NextTag, PrintedTag, PrintedText;
    var t, rest := ts[k], ts[k + 1..];
    assert ts[k..][0] == t && ts[k..][1..] == rest;
    KindsDiffer(t);
    TagReadsBack(t);
    Cut(s, open, t.raw, Raw(rest));
    NextTagIsPrinted(s, cur, open, t);
    var end := open + |t.raw|;
    TagChunk(s, cur, open, end, out, ts[..k], t);
    PrintedTail(ts, k + 1);
    var mark := if end == |s| then [END_MARK] else [];
    if rest != [] {
      KindsDiffer(rest[0]);
      RawNonempty(rest);
    }
    TokensOfPrinted(s, end, out + (ts[..k] + [t] + mark), rest);
    MarkOfRest(out, ts, k, mark);
  }

  /** Printing tokens and tokenizing the text are inverse, up to the mark behind a final tag. */
  lemma TokenizeAfterPrint(ts: seq<Token>)
    requires Printed(ts)
    ensures Tokens(Raw(ts), 0, []) == Some(ts + Mark(ts))
  {
    TokensOfPrinted(Raw(ts), 0, [], ts);
    assert [] + (ts + Mark(ts)) == ts + Mark(ts);
  }
}
