/** strip_whitespace as the source runs it, erasing tokens of the vector in place, and the whole path from
    template text to output. */
module MustacheStrip {
  import opened Basics
  import opened MustacheNodes
  import opened Mustache
  import opened MustacheRenderer
  import opened MustacheTemplate

  lemma {:induction false} NonBlankSnoc(ts: seq<Token>, t: Token)
    ensures NonBlank(ts + [t]) == NonBlank(ts) + (if t.wsOnly then [] else [t])
    decreases |ts|
  {
    if ts == [] {
      assert ts + [t] == [t] && [t][1..] == [];
    } else {
      NonBlankSnoc(ts[1..], t);
      assert (ts + [t])[0] == ts[0] && (ts + [t])[1..] == ts[1..] + [t];
    }
  }

  lemma {:induction false} NonBlankAppend(a: seq<Token>, b: seq<Token>)
    ensures NonBlank(a + b) == NonBlank(a) + NonBlank(b)
    decreases |a|
  {
    if a == [] {
      assert a + b == b;
    } else {
      NonBlankAppend(a[1..], b);
      assert (a + b)[0] == a[0] && (a + b)[1..] == a[1..] + b;
    }
  }

  /** The vector while prefixes are stored: line tokens before i have theirs. */
  ghost function Storing(before: seq<Token>, line: seq<Token>, rest: seq<Token>, i: nat): (m: seq<Token>)
    requires i <= |line|
  {
    before + (WithPrefixes(line)[..i] + line[i..]) + rest
  }

  lemma StoreStep(before: seq<Token>, line: seq<Token>, rest: seq<Token>, i: nat)
    requires i < |line|
    ensures var m, at := Storing(before, line, rest, i), |before| + i;
            && |m| == |before| + |line| + |rest| && m[at] == line[i]
            && (i > 0 ==> m[at - 1].wsOnly == line[i - 1].wsOnly && m[at - 1].raw == line[i - 1].raw)
            && Storing(before, line, rest, i + 1) == m[at := WithPrefix(line, i)]
  {
    var m := Storing(before, line, rest, i);
    assert i > 0 ==> m[|before| + i - 1] == WithPrefixes(line)[i - 1] == WithPrefix(line, i - 1);
    assert WithPrefixes(line)[..i + 1] == WithPrefixes(line)[..i] + [WithPrefix(line, i)];
    assert line[i..] == [line[i]] + line[i + 1..];
  }

  lemma StoringStartsAndEnds(before: seq<Token>, line: seq<Token>, rest: seq<Token>)
    requires line != [] && line[|line| - 1].eol && TokenOk(line[|line| - 1])
    ensures Storing(before, line, rest, 0) == before + line + rest
    ensures Storing(before, line, rest, |line| - 1) == before + WithPrefixes(line) + rest
  {
    var last := |line| - 1;
    assert WithPrefixes(line)[..0] + line[0..] == line;
    assert WithPrefixes(line)[..last] + line[last..] == WithPrefixes(line);
  }

  /** The tokens of one line between what is done and what is to come. */
  method StorePrefixes(before: seq<Token>, line: seq<Token>, rest: seq<Token>) returns (m: seq<Token>)
    requires line != [] && line[|line| - 1].eol && forall i :: 0 <= i < |line| ==> TokenOk(line[i])
    requires forall i :: 0 <= i < |line| - 1 ==> !line[i].eol
    ensures m == before + WithPrefixes(line) + rest
  {
    m := before + line + rest;
    StoringStartsAndEnds(before, line, rest);
    hide Storing;
    var beg := |before|;
    var cur := beg;
    StoreStep(before, line, rest, 0);
    while !m[cur].eol
      invariant beg <= cur < beg + |line| && cur < |m| && m[cur] == line[cur - beg]
      invariant m == Storing(before, line, rest, cur - beg)
      decreases beg + |line| - cur
    {
      StoreStep(before, line, rest, cur - beg);
      StoreStep(before, line, rest, cur - beg + 1);
      if m[cur].kind.Partial? && cur != beg && m[cur - 1].wsOnly {
        m := m[cur := m[cur].(prefix := m[cur - 1].raw)];
      } else {
        assert m[cur := m[cur]] == m;
      }
      cur := cur + 1;
    }
  }

  /** The vector while a line is being cleaned: what is kept so far, and the rest from token seen on. */
  ghost function Partly(before: seq<Token>, line: seq<Token>, rest: seq<Token>, seen: nat): (m: seq<Token>)
    requires seen <= |line|
  {
    (before + NonBlank(line[..seen])) + (line[seen..] + rest)
  }

  ghost function Cursor(before: seq<Token>, line: seq<Token>, seen: nat): (c: nat)
    requires seen <= |line|
  {
    |before| + |NonBlank(line[..seen])|
  }

  /** vector::erase of one element. */
  function Erase(m: seq<Token>, at: nat): (out: seq<Token>)
    requires at < |m|
  {
    m[..at] + m[at + 1..]
  }

  lemma EraseStep(before: seq<Token>, line: seq<Token>, rest: seq<Token>, seen: nat)
    requires seen < |line|
    ensures var m, c := Partly(before, line, rest, seen), Cursor(before, line, seen);
            && c < |m| && m[c] == line[seen]
            && Partly(before, line, rest, seen + 1) == (if line[seen].wsOnly then Erase(m, c) else m)
            && Cursor(before, line, seen + 1) == (if line[seen].wsOnly then c else c + 1)
  {
    hide NonBlank;
    var kept, tail := before + NonBlank(line[..seen]), line[seen + 1..] + rest;
    NonBlankSnoc(line[..seen], line[seen]);
    assert line[..seen + 1] == line[..seen] + [line[seen]];
    assert line[seen..] + rest == [line[seen]] + tail;
    EraseAt(kept, line[seen], tail);
    Assoc(before, NonBlank(line[..seen]), [line[seen]]);
    EmptyRight(NonBlank(line[..seen]));
  }

  lemma EraseAt(kept: seq<Token>, t: Token, tail: seq<Token>)
    ensures var m := kept + ([t] + tail);
            && m[|kept|] == t && m[..|kept|] + m[|kept| + 1..] == kept + tail
            && m == (kept + [t]) + tail
  {
    var m := kept + ([t] + tail);
    assert m[..|kept|] == kept && m[|kept| + 1..] == tail;
  }

  /** Erase the blank tokens of a line up to and including its end; next is one past what is kept. */
  method EraseBlank(before: seq<Token>, line: seq<Token>, rest: seq<Token>) returns (m: seq<Token>, next: nat)
    requires line != [] && line[|line| - 1].eol
    requires forall i :: 0 <= i < |line| - 1 ==> !line[i].eol
    ensures m == before + NonBlank(line) + rest && next == |before| + |NonBlank(line)|
  {
    m := before + line + rest;
    next := |before|;
    ErasingStartsAndEnds(before, line, rest);
    hide Partly, Cursor, NonBlank, Erase;
    ghost var seen := 0;
    var end := false;
    while !end
      invariant seen <= |line| && (end <==> seen == |line|)
      invariant m == Partly(before, line, rest, seen) && next == Cursor(before, line, seen)
      decreases |line| - seen
    {
      EraseStep(before, line, rest, seen);
      var t := m[next];
      assert t == line[seen] && (t.eol <==> seen == |line| - 1);
      if t.wsOnly {
        m := Erase(m, next);
      } else {
        next := next + 1;
      }
      assert m == Partly(before, line, rest, seen + 1);
      seen := seen + 1;
      end := t.eol;
    }
  }

  lemma ErasingStartsAndEnds(before: seq<Token>, line: seq<Token>, rest: seq<Token>)
    ensures Partly(before, line, rest, 0) == before + line + rest && Cursor(before, line, 0) == |before|
    ensures Partly(before, line, rest, |line|) == before + NonBlank(line) + rest
    ensures Cursor(before, line, |line|) == |before| + |NonBlank(line)|
  {
    assert line[..0] == [] && line[0..] == line && line[..|line|] == line && line[|line|..] == [];
    Assoc(before, line, rest);
    EmptyRight(before);
    assert [] + rest == rest;
  }

  /** A finished standalone line, between what is done and what is to come. */
  method RewriteLine(before: seq<Token>, line: seq<Token>, rest: seq<Token>) returns (m: seq<Token>, next: nat)
    requires line != [] && line[|line| - 1].eol && Standalone(line)
    requires forall i :: 0 <= i < |line| ==> TokenOk(line[i])
    requires forall i :: 0 <= i < |line| - 1 ==> !line[i].eol
    ensures m == before + StripLine(line) + rest && next == |before| + |StripLine(line)|
  {
    hide NonBlank;
    m := StorePrefixes(before, line, rest);
    var prefixed := m[|before|..|before| + |line|];
    assert prefixed == WithPrefixes(line);
    m, next := EraseBlank(before, prefixed, rest);
  }

  predicate TagIn(m: seq<Token>, from: nat, stop: nat)
    requires from <= stop <= |m|
  {
    exists k :: from <= k < stop && IsTag(m[k])
  }

  predicate NonSpaceIn(m: seq<Token>, from: nat, stop: nat)
    requires from <= stop <= |m|
  {
    exists k :: from <= k < stop && !IsTag(m[k]) && !m[k].wsOnly
  }

  lemma FlagsStep(m: seq<Token>, from: nat, it: nat)
    requires from <= it < |m|
    ensures TagIn(m, from, it + 1) <==> TagIn(m, from, it) || IsTag(m[it])
    ensures NonSpaceIn(m, from, it + 1) <==> NonSpaceIn(m, from, it) || (!IsTag(m[it]) && !m[it].wsOnly)
  {
  }

  /** The flags of the loop say whether the line just ended stands alone. */
  lemma LineOf(m: seq<Token>, lineBegin: nat, it: nat)
    requires lineBegin <= it < |m| && m[it].eol && forall k :: lineBegin <= k < it ==> !m[k].eol
    ensures var line := m[lineBegin..it + 1];
            && (Standalone(line) <==> TagIn(m, lineBegin, it + 1) && !NonSpaceIn(m, lineBegin, it + 1))
            && Strip(m[lineBegin..]) == StripLine(line) + Strip(m[it + 1..])
  {
    var line, tail := m[lineBegin..it + 1], m[lineBegin..];
    assert FirstEol(tail, 0) == it - lineBegin;
    assert tail[..it - lineBegin + 1] == line && tail[it - lineBegin + 1..] == m[it + 1..];
    assert forall k :: lineBegin <= k < it + 1 ==> m[k] == line[k - lineBegin];
    assert forall i :: 0 <= i < |line| ==> line[i] == m[lineBegin + i];
  }

  /** The loop of strip_whitespace: it walks the vector, and rewrites each finished line that only holds
      tags and white space. */
  method StripWhitespace(tokens: seq<Token>) returns (m: seq<Token>)
    requires forall i :: 0 <= i < |tokens| ==> TokenOk(tokens[i])
    ensures m == Strip(tokens)
  {
    hide Strip, StripLine, Standalone;
    m := tokens;
    var lineBegin: nat, it: nat := 0, 0;
    var hasTag, nonSpace := false, false;
    assert m[..0] + Strip(m[0..]) == Strip(tokens) by {
      assert m[..0] == [] && m[0..] == m;
    }
    while it < |m|
      invariant lineBegin <= it <= |m|
      invariant m[..lineBegin] + Strip(m[lineBegin..]) == Strip(tokens)
      invariant forall k :: lineBegin <= k < it ==> !m[k].eol
      invariant forall k :: lineBegin <= k < |m| ==> TokenOk(m[k])
      invariant hasTag == TagIn(m, lineBegin, it) && nonSpace == NonSpaceIn(m, lineBegin, it)
      decreases |m| - it
    {
      FlagsStep(m, lineBegin, it);
      if IsTag(m[it]) {
        hasTag := true;
      } else if !m[it].wsOnly {
        nonSpace := true;
      }
      if m[it].eol {
        LineOf(m, lineBegin, it);
        assert hasTag == TagIn(m, lineBegin, it + 1) && nonSpace == NonSpaceIn(m, lineBegin, it + 1);
        m, it := FinishLine(m, lineBegin, it, hasTag && !nonSpace);
        hasTag, nonSpace := false, false;
        lineBegin := it;
      } else {
        it := it + 1;
      }
    }
    UnterminatedLine(m, lineBegin);
  }

  /** End of a line: rewrite it or leave it; next is where the following line begins. */
  method FinishLine(m: seq<Token>, lineBegin: nat, it: nat, standalone: bool) returns (out: seq<Token>, next: nat)
    requires lineBegin <= it < |m| && m[it].eol && forall k :: lineBegin <= k < it ==> !m[k].eol
    requires forall k :: lineBegin <= k < |m| ==> TokenOk(m[k])
    requires standalone == Standalone(m[lineBegin..it + 1])
    requires Strip(m[lineBegin..]) == StripLine(m[lineBegin..it + 1]) + Strip(m[it + 1..])
    ensures next <= |out| && |out| - next == |m| - (it + 1) && out[next..] == m[it + 1..]
    ensures out[..next] + Strip(out[next..]) == m[..lineBegin] + Strip(m[lineBegin..])
  {
    hide Strip, Standalone, NonBlank;
    var before, line, rest := m[..lineBegin], m[lineBegin..it + 1], m[it + 1..];
    assert forall i :: 0 <= i < |line| ==> line[i] == m[lineBegin + i];
    if standalone {
      out, next := RewriteLine(before, line, rest);
    } else {
      out, next := m, it + 1;
      assert m[..it + 1] == before + line;
    }
    assert out[..next] == before + StripLine(line) && out[next..] == rest;
    assert before + (StripLine(line) + Strip(rest)) == before + StripLine(line) + Strip(rest);
  }

  lemma UnterminatedLine(m: seq<Token>, lineBegin: nat)
    requires lineBegin <= |m| && forall k :: lineBegin <= k < |m| ==> !m[k].eol
    ensures m[..lineBegin] + Strip(m[lineBegin..]) == m
  {
    assert FirstEol(m[lineBegin..], 0) == |m[lineBegin..]|;
    assert m == m[..lineBegin] + m[lineBegin..];
  }

  // --- what stripping keeps --------------------------------------------------------------------

  function Bare(ts: seq<Token>): (out: seq<Token>)
    ensures |out| == |ts| && forall i :: 0 <= i < |ts| ==> out[i] == ts[i].(prefix := "")
  {
    seq(|ts|, i requires 0 <= i < |ts| => ts[i].(prefix := ""))
  }

  lemma {:induction false} BareNonBlank(a: seq<Token>, b: seq<Token>)
    requires Bare(a) == Bare(b)
    ensures Bare(NonBlank(a)) == Bare(NonBlank(b))
    decreases |a|
  {
    assert |a| == |Bare(a)| == |b|;
    if a != [] {
      assert a[0].(prefix := "") == Bare(a)[0] == Bare(b)[0] == b[0].(prefix := "");
      assert Bare(a[1..]) == Bare(a)[1..] == Bare(b)[1..] == Bare(b[1..]);
      BareNonBlank(a[1..], b[1..]);
    }
  }

  lemma {:induction false} NonBlankIdempotent(ts: seq<Token>)
    ensures NonBlank(NonBlank(ts)) == NonBlank(ts)
    decreases |ts|
  {
    if ts != [] {
      NonBlankIdempotent(ts[1..]);
      if !ts[0].wsOnly {
        assert ([ts[0]] + NonBlank(ts[1..]))[1..] == NonBlank(ts[1..]);
      }
    }
  }

  lemma BareWithPrefixes(line: seq<Token>)
    ensures Bare(WithPrefixes(line)) == Bare(line)
  {
  }

  /** Stripping drops only blank text: every other token stays, in order and, but for a stored prefix,
      unchanged. */
  lemma {:induction false} StripKeepsTheRest(ts: seq<Token>)
    ensures Bare(NonBlank(Strip(ts))) == Bare(NonBlank(ts))
    decreases |ts|
  {
    var k := FirstEol(ts, 0);
    if k < |ts| {
      var line, rest := ts[..k + 1], ts[k + 1..];
      StripKeepsTheRest(rest);
      StripLineKeepsTheRest(line);
      StripHead(ts, k);
      hide Strip, StripLine, NonBlank, FirstEol, Bare;
      BareNonBlankAppend(StripLine(line), Strip(rest));
      BareNonBlankAppend(line, rest);
    }
  }

  lemma StripHead(ts: seq<Token>, k: nat)
    requires k == FirstEol(ts, 0) && k < |ts|
    ensures Strip(ts) == StripLine(ts[..k + 1]) + Strip(ts[k + 1..]) && ts == ts[..k + 1] + ts[k + 1..]
  {
    hide StripLine, FirstEol;
    assert ts == ts[..k + 1] + ts[k + 1..];
  }

  lemma StripLineKeepsTheRest(line: seq<Token>)
    ensures Bare(NonBlank(StripLine(line))) == Bare(NonBlank(line))
  {
    hide NonBlank, Standalone, Bare;
    BareWithPrefixes(line);
    BareNonBlank(WithPrefixes(line), line);
    NonBlankIdempotent(WithPrefixes(line));
  }

  lemma BareNonBlankAppend(a: seq<Token>, b: seq<Token>)
    ensures Bare(NonBlank(a + b)) == Bare(NonBlank(a)) + Bare(NonBlank(b))
  {
    hide NonBlank;
    NonBlankAppend(a, b);
    BareAppend(NonBlank(a), NonBlank(b));
  }

  /** On a standalone line only its tags survive; any other line is unchanged. */
  lemma StripLineIsExact(line: seq<Token>)
    ensures Standalone(line) ==> forall i :: 0 <= i < |StripLine(line)| ==> IsTag(StripLine(line)[i])
    ensures !Standalone(line) ==> StripLine(line) == line
  {
    if Standalone(line) {
      forall i | 0 <= i < |line| ensures IsTag(WithPrefixes(line)[i]) || WithPrefixes(line)[i].wsOnly {
        assert IsTag(line[i]) || line[i].wsOnly;
      }
      NonBlankAreTags(WithPrefixes(line));
    }
  }

  lemma {:induction false} NonBlankAreTags(ts: seq<Token>)
    requires forall i :: 0 <= i < |ts| ==> IsTag(ts[i]) || ts[i].wsOnly
    ensures forall i :: 0 <= i < |NonBlank(ts)| ==> IsTag(NonBlank(ts)[i])
    decreases |ts|
  {
    if ts != [] {
      NonBlankAreTags(ts[1..]);
    }
  }

  lemma BareAppend(a: seq<Token>, b: seq<Token>)
    ensures Bare(a + b) == Bare(a) + Bare(b)
  {
  }

  // --- from text to output ---------------------------------------------------------------------

  lemma {:induction false} TextTokensOk(s: string, from: nat, stop: nat)
    requires from <= stop <= |s|
    ensures forall i :: 0 <= i < |TextTokens(s, from, stop)| ==> TokenOk(TextTokens(s, from, stop)[i])
    decreases stop - from
  {
    if from < stop {
      TextTokensOk(s, LineEnd(s, from, stop), stop);
    }
  }

  lemma {:induction false} TokensOk(s: string, cur: nat, out: seq<Token>)
    requires cur <= |s| && forall i :: 0 <= i < |out| ==> TokenOk(out[i])
    ensures Tokens(s, cur, out).Some? ==>
              forall i :: 0 <= i < |Tokens(s, cur, out).value| ==> TokenOk(Tokens(s, cur, out).value[i])
    decreases |s| - cur
  {
    if cur < |s| {
      var tag := NextTag(s, cur);
      if tag.None? {
        TextTokensOk(s, cur, |s|);
      } else {
        TextTokensOk(s, cur, tag.value.0);
        var chunk := Chunk(s, cur, tag.value.0, tag.value.1);
        if chunk.Some? {
          TokensOk(s, tag.value.1, out + chunk.value);
        }
      }
    }
  }

  /** mstch::render without partials: tokenize, strip, render. A template whose stripped tokens are balanced
      prints the meaning of its tree. */
  method RenderText(escape: string -> string, template: string, root: Node) returns (output: Option<string>)
    ensures output == RenderedText(escape, template, root)
    ensures output.Some? ==>
              var tokens := Strip(Tokens(template, 0, []).value);
              Balanced(tokens, []) ==>
                exists f :: WellNamed(f) && Flatten(f) == tokens && output.value == Meaning(escape, [root], f)
  {
    hide Strip, Tokens;
    var tokens := Tokenize(template);
    if tokens.None? {
      return None;
    }
    TokensOk(template, 0, []);
    var stripped := StripWhitespace(tokens.value);
    var text := RenderTemplate(escape, root, stripped);
    output := Some(text);
  }
}
