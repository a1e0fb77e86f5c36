/** What templates print, stated on their text. */
module MustacheForms {
  import opened Basics
  import opened Decimal
  import opened Text
  import opened MustacheNodes
  import opened Mustache
  import opened MustacheTemplate
  import opened MustacheText

  // --- any printed template --------------------------------------------------------------------

  /** No terminated line holds only tags and white space. */
  ghost predicate NoLineAlone(ts: seq<Token>)
    decreases |ts|
  {
    var k := FirstEol(ts, 0);
    k == |ts| || (!Standalone(ts[..k + 1]) && NoLineAlone(ts[k + 1..]))
  }

  lemma {:induction false} StripNothing(ts: seq<Token>)
    requires NoLineAlone(ts)
    ensures Strip(ts) == ts
    decreases |ts|
  {
    var k := FirstEol(ts, 0);
    if k < |ts| {
      StripNothing(ts[k + 1..]);
      assert ts == ts[..k + 1] + ts[k + 1..];
    }
  }

  /** The text of a tree, rendered, is the tree's meaning: from characters to output, when no line stands alone. */
  lemma TemplateMeansTree(escape: string -> string, f: seq<Tree>, root: Node)
    requires WellNamed(f) && Printed(Flatten(f)) && NoLineAlone(Flatten(f) + Mark(Flatten(f)))
    ensures RenderedText(escape, Raw(Flatten(f)), root) == Some(Meaning(escape, [root], f))
  {
    hide Printed, Tokens, Strip, Raw, Meaning, WellNamed, Stream;
    var ts := Flatten(f);
    TokenizeAfterPrint(ts);
    StripNothing(ts + Mark(ts));
    StreamMeansTree(escape, f, Mark(ts), [root]);
    MarkPrintsNothing(escape, ts, [root]);
    EmptyRight(Meaning(escape, [root], f));
  }

  lemma MarkPrintsNothing(escape: string -> string, ts: seq<Token>, stack: seq<Node>)
    ensures Stream(escape, Mark(ts), stack, Outside) == ""
  {
    if Mark(ts) != [] {
      StreamStep(escape, END_MARK, [], stack, Outside);
      assert [END_MARK] + [] == [END_MARK];
    }
  }

  /** One line with something on it besides tags and white space. */
  lemma VisibleLine(ts: seq<Token>, i: nat)
    requires i < |ts| && !IsTag(ts[i]) && !ts[i].wsOnly
    requires forall k :: 0 <= k < |ts| ==> !ts[k].eol
    ensures NoLineAlone(ts + [END_MARK])
  {
    var line := ts + [END_MARK];
    assert forall k :: 0 <= k < |ts| ==> line[k] == ts[k];
    assert |line| == |ts| + 1 && line[|ts|].eol;
    assert FirstEol(line, 0) == |ts|;
    assert line[..|ts| + 1] == line && line[|ts| + 1..] == [];
    assert !Standalone(line) by {
      assert line[i] == ts[i];
    }
  }

  // --- sections --------------------------------------------------------------------------------

  function Opening(inverted: bool): (k: Kind) {
    if inverted then InvertedOpen else SectionOpen
  }

  function Sigil(inverted: bool): (s: string) {
    if inverted then "^" else "#"
  }

  function SectionTree(inverted: bool, name: string, body: Token): (f: seq<Tree>) {
    [Section(Tag(Opening(inverted), name), [Leaf(body)], Tag(SectionClose, name))]
  }

  lemma SectionTokens(inverted: bool, name: string, body: Token)
    requires !body.Opens() && !body.kind.SectionClose?
    ensures var f := SectionTree(inverted, name, body);
            && WellNamed(f)
            && Flatten(f) == [Tag(Opening(inverted), name), body, Tag(SectionClose, name)]
            && Raw(Flatten(f)) == "{{" + (Sigil(inverted) + name) + "}}" + body.raw + ("{{" + ("/" + name) + "}}")
  {
    var f := SectionTree(inverted, name, body);
    var open, close := Tag(Opening(inverted), name), Tag(SectionClose, name);
    FlattenHead(f);
    assert f[1..] == [] && Flatten([Leaf(body)]) == [body] by {
      FlattenHead([Leaf(body)]);
      assert [Leaf(body)][1..] == [];
    }
    assert WellNamed([Leaf(body)]);
    RawOfThree(open, body, close);
  }

  lemma RawOfThree(a: Token, b: Token, c: Token)
    ensures Raw([a, b, c]) == a.raw + b.raw + c.raw
  {
    assert [a, b, c][1..] == [b, c] && [b, c][1..] == [c] && [c][1..] == [];
    assert Raw([c]) == c.raw + "";
    assert Raw([b, c]) == b.raw + Raw([c]);
    Assoc(a.raw, b.raw, c.raw);
  }

  /** A section on one line whose body shows prints its meaning. */
  lemma SectionMeans(escape: string -> string, inverted: bool, name: string, body: Token, root: Node)
    requires PlainName(name) && (PrintedTag(body) || PrintedText(body)) && !body.eol && !IsTag(body) && !body.wsOnly
    ensures RenderedText(escape, "{{" + (Sigil(inverted) + name) + "}}" + body.raw + ("{{" + ("/" + name) + "}}"), root)
            == Some(TreeMeaning(escape, [root], SectionTree(inverted, name, body)[0]))
  {
    hide RenderedText, TreeMeaning;
    var f := SectionTree(inverted, name, body);
    SectionTokens(inverted, name, body);
    VisibleLine(Flatten(f), 1);
    TemplateMeansTree(escape, f, root);
    OneTree(escape, root, f[0]);
  }

  lemma OneTree(escape: string -> string, root: Node, t: Tree)
    ensures Meaning(escape, [root], [t]) == TreeMeaning(escape, [root], t)
  {
    hide TreeMeaning;
    assert [t][1..] == [];
    assert Meaning(escape, [root], []) == "";
    EmptyRight(TreeMeaning(escape, [root], t));
  }

  function Times(x: string, k: nat): (s: string) {
    if k == 0 then "" else x + Times(x, k - 1)
  }

  /** Nothing to show: the nodes that make a section disappear and an inverted one appear. */
  predicate Nothing(n: Node) {
    n == Null || n == Int(0) || n == Bool(false) || n == Str("") || n == Array([]) || (n.Double? && n.isZero)
  }

  /** The entry of the root, or nothing. */
  function Entry(root: Node, name: string): (n: Node) {
    if BindsName(root, name) then root.entries[name] else Null
  }

  lemma EntryIsFound(root: Node, name: string)
    requires Free(name, '.')
    ensures FindNode(name, [root]) == Entry(root, name)
  {
    hide FindNode;
    if BindsName(root, name) {
      InnermostWins(name, [root], 0);
    } else {
      UnboundIsNull(name, [root]);
    }
  }

  lemma {:induction false} EachText(escape: string -> string, stack: seq<Node>, items: seq<Node>, t: Token)
    requires t.kind.TextKind?
    ensures Each(escape, stack, items, [Leaf(t)]) == Times(t.raw, |items|)
    decreases |items|
  {
    if items != [] {
      TextMeans(escape, [items[0]] + stack, t);
      EachText(escape, stack, items[1..], t);
    }
  }

  lemma TextMeans(escape: string -> string, stack: seq<Node>, t: Token)
    requires t.kind.TextKind?
    ensures Meaning(escape, stack, [Leaf(t)]) == t.raw
  {
    assert [Leaf(t)][1..] == [];
    assert Meaning(escape, stack, []) == "";
    EmptyRight(t.raw);
  }

  predicate Visible(x: string) {
    x != "" && NoBraces(x) && Free(x, '\n') && exists i :: 0 <= i < |x| && !IsBlank(x[i])
  }

  /** Text in a section is printed exactly when there is something under the name, once per item of an array. */
  lemma SectionPrints(escape: string -> string, name: string, x: string, root: Node)
    requires PlainName(name) && Free(name, '.') && Visible(x)
    ensures var n := Entry(root, name);
            RenderedText(escape, "{{" + ("#" + name) + "}}" + x + ("{{" + ("/" + name) + "}}"), root)
            == Some(if Nothing(n) then "" else if n.Array? then Times(x, |n.items|) else x)
  {
    hide RenderedText, FindNode, Each, Meaning;
    var t := TextToken(x);
    SectionMeans(escape, false, name, t, root);
    EntryIsFound(root, name);
    var n := Entry(root, name);
    EmptyIff(n);
    TextMeans(escape, [n] + [root], t);
    if n.Array? {
      EachText(escape, [root], n.items, t);
    }
  }

  /** Text in an inverted section is printed exactly when there is nothing under the name. */
  lemma InvertedPrints(escape: string -> string, name: string, x: string, root: Node)
    requires PlainName(name) && Free(name, '.') && Visible(x)
    ensures RenderedText(escape, "{{" + ("^" + name) + "}}" + x + ("{{" + ("/" + name) + "}}"), root)
            == Some(if Nothing(Entry(root, name)) then x else "")
  {
    hide RenderedText, FindNode, Each, Meaning;
    var t := TextToken(x);
    SectionMeans(escape, true, name, t, root);
    EntryIsFound(root, name);
    EmptyIff(Entry(root, name));
    TextMeans(escape, [Null] + [root], t);
  }

  predicate Blank(x: string) {
    Free(x, '\n') && forall i :: 0 <= i < |x| ==> IsBlank(x[i])
  }

  /** A section alone on its line with only white space in it prints nothing, whatever is under the name. */
  lemma BlankBodyVanishes(escape: string -> string, inverted: bool, name: string, x: string, root: Node)
    requires PlainName(name) && Blank(x)
    ensures RenderedText(escape, "{{" + (Sigil(inverted) + name) + "}}" + x + ("{{" + ("/" + name) + "}}"), root) == Some("")
  {
    hide Tokens, Strip, Raw, Stream, Printed, TextToken, Sigil, Inner;
    var open, close := Tag(Opening(inverted), name), Tag(SectionClose, name);
    var body := if x == "" then [] else [TextToken(x)];
    BlankTokens(inverted, name, x, body);
    var ts := [open] + body + [close];
    assert Mark(ts) == [END_MARK];
    StripBlankBody(open, body, close);
    EmptySectionPrintsNothing(escape, open, close, root);
  }

  lemma BlankTokens(inverted: bool, name: string, x: string, body: seq<Token>)
    requires PlainName(name) && Blank(x) && body == if x == "" then [] else [TextToken(x)]
    ensures var ts := [Tag(Opening(inverted), name)] + body + [Tag(SectionClose, name)];
            && Tokens("{{" + (Sigil(inverted) + name) + "}}" + x + ("{{" + ("/" + name) + "}}"), 0, []) == Some(ts + Mark(ts))
            && forall i :: 0 <= i < |body| ==> body[i].wsOnly && !body[i].eol && !body[i].kind.Partial?
  {
    hide Tokens;
    var open, close := Tag(Opening(inverted), name), Tag(SectionClose, name);
    var ts := [open] + body + [close];
    if x == "" {
      assert ts == [open] + [close];
      RawAppend([open], [close]);
      RawOfOne(open);
      RawOfOne(close);
      EmptyRight(open.raw);
    } else {
      assert ts == [open, body[0], close];
      RawOfThree(open, body[0], close);
      BlankIsPrinted(x);
    }
    assert Printed(ts);
    TokenizeAfterPrint(ts);
  }

  lemma BlankIsPrinted(x: string)
    requires x != "" && Blank(x)
    ensures PrintedText(TextToken(x)) && TextToken(x).wsOnly && !TextToken(x).eol
  {
  }

  lemma StripBlankBody(open: Token, body: seq<Token>, close: Token)
    requires IsTag(open) && IsTag(close) && |body| <= 1 && !open.kind.Partial? && !close.kind.Partial?
    requires !open.eol && !close.eol && !open.wsOnly && !close.wsOnly
    requires forall i :: 0 <= i < |body| ==> body[i].wsOnly && !body[i].eol && !body[i].kind.Partial?
    ensures Strip([open] + body + [close] + [END_MARK]) == [open, close]
  {
    hide Strip, NonBlank;
    var line := [open] + body + [close] + [END_MARK];
    StripStandalone(line);
    NonBlankAppended([open], body, close);
  }

  /** A line that ends the template and holds only tags and white space keeps its tags. */
  lemma StripStandalone(line: seq<Token>)
    requires |line| > 1 && IsTag(line[0]) && line[|line| - 1].eol
    requires forall i :: 0 <= i < |line| - 1 ==> !line[i].eol
    requires forall i :: 0 <= i < |line| ==> !line[i].kind.Partial? && (IsTag(line[i]) || line[i].wsOnly)
    ensures Strip(line) == NonBlank(line)
  {
    hide NonBlank;
    assert FirstEol(line, 0) == |line| - 1;
    assert line[..|line|] == line && line[|line|..] == [];
    assert WithPrefixes(line) == line;
    EmptyRight(NonBlank(line));
  }

  lemma NonBlankAppended(open: seq<Token>, body: seq<Token>, close: Token)
    requires |open| == 1 && |body| <= 1 && !open[0].wsOnly && !close.wsOnly
    requires forall i :: 0 <= i < |body| ==> body[i].wsOnly
    ensures NonBlank(open + body + [close] + [END_MARK]) == [open[0], close]
  {
    var tail := [close] + [END_MARK];
    assert tail[1..] == [END_MARK] && [END_MARK][1..] == [];
    assert NonBlank([END_MARK]) == NonBlank([]) == [];
    assert NonBlank(tail) == [close];
    var rest := body + tail;
    assert body != [] ==> rest[0] == body[0] && rest[1..] == tail;
    assert body == [] ==> rest == tail;
    assert NonBlank(rest) == [close];
    var line := open + body + [close] + [END_MARK];
    assert line == open + rest && line[0] == open[0] && line[1..] == rest;
  }

  lemma EmptySectionPrintsNothing(escape: string -> string, open: Token, close: Token, root: Node)
    requires open.Opens() && close.kind.SectionClose? && close.name == open.name
    ensures Stream(escape, [open, close], [root], Outside) == ""
  {
    hide Stream, FindNode, SectionText;
    assert Flatten([]) == [] && WellNamed([]);
    SectionIsRendered(escape, open, [], close, [], [root]);
    assert [open] + [] + [close] + [] == [open, close];
    StreamNone(escape, [root]);
    EmptySectionText(escape, [root], open.kind.InvertedOpen?, open.name);
  }

  lemma EmptySectionText(escape: string -> string, stack: seq<Node>, inverted: bool, name: string)
    ensures SectionText(escape, stack, inverted, name, []) == ""
  {
    hide FindNode;
    var node := FindNode(name, stack);
    if node.Array? {
      EmptyItems(escape, stack, node.items);
    }
  }

  lemma {:induction false} EmptyItems(escape: string -> string, stack: seq<Node>, items: seq<Node>)
    ensures ItemsText(escape, stack, items, []) == ""
    decreases |items|
  {
    if items != [] {
      EmptyItems(escape, stack, items[1..]);
    }
  }

  // --- a variable in a section -----------------------------------------------------------------

  lemma VariableMeans(escape: string -> string, stack: seq<Node>, name: string)
    ensures Meaning(escape, stack, [Leaf(Tag(Variable, name))]) == Show(escape, true, FindNode(name, stack))
  {
    hide FindNode, Show;
    assert [Leaf(Tag(Variable, name))][1..] == [];
    assert Meaning(escape, stack, []) == "";
    EmptyRight(Show(escape, true, FindNode(name, stack)));
  }

  /** A section over a map prints the map's own entry when it has the name, and the outer one when not. */
  lemma MapEntryPrints(escape: string -> string, section: string, name: string, root: Node)
    requires PlainName(section) && Free(section, '.') && PlainName(name) && Free(name, '.') && Entry(root, section).Map?
    ensures var own := Entry(root, section);
            RenderedText(escape, "{{" + ("#" + section) + "}}" + ("{{" + name + "}}") + ("{{" + ("/" + section) + "}}"), root)
            == Some(Show(escape, true, if name in own.entries then own.entries[name] else Entry(root, name)))
  {
    hide RenderedText, FindNode, Show, Each, Meaning;
    var own := Entry(root, section);
    SectionMeans(escape, false, section, Tag(Variable, name), root);
    EntryIsFound(root, section);
    VariableMeans(escape, [own] + [root], name);
    InnerOrOuter(own, root, name);
  }

  lemma InnerOrOuter(own: Node, root: Node, name: string)
    requires Free(name, '.') && own.Map?
    ensures FindNode(name, [own] + [root]) == if name in own.entries then own.entries[name] else Entry(root, name)
  {
    hide FindNode;
    var stack := [own] + [root];
    assert stack[0] == own && stack[1] == root;
    if name in own.entries {
      InnermostWins(name, stack, 0);
    } else if BindsName(root, name) {
      InnermostWins(name, stack, 1);
    } else {
      UnboundIsNull(name, stack);
    }
  }

  /** What the items print, in order. */
  function OwnValues(escape: string -> string, items: seq<Node>, name: string): (s: string)
    requires forall i :: 0 <= i < |items| ==> BindsName(items[i], name)
  {
    if items == [] then ""
    else
      assert BindsName(items[0], name);
      Show(escape, true, items[0].entries[name]) + OwnValues(escape, items[1..], name)
  }

  lemma {:induction false} EachOwnValue(escape: string -> string, root: Node, items: seq<Node>, name: string)
    requires Free(name, '.') && forall i :: 0 <= i < |items| ==> BindsName(items[i], name)
    ensures Each(escape, [root], items, [Leaf(Tag(Variable, name))]) == OwnValues(escape, items, name)
    decreases |items|
  {
    hide FindNode, Show, Meaning;
    if items != [] {
      VariableMeans(escape, [items[0]] + [root], name);
      InnerOrOuter(items[0], root, name);
      EachOwnValue(escape, root, items[1..], name);
    }
  }

  /** A section over an array of maps prints each item's own entry, in order, whatever the root has. */
  lemma ItemEntriesPrint(escape: string -> string, section: string, name: string, root: Node)
    requires PlainName(section) && Free(section, '.') && PlainName(name) && Free(name, '.') && Entry(root, section).Array?
    requires forall i :: 0 <= i < |Entry(root, section).items| ==> BindsName(Entry(root, section).items[i], name)
    ensures RenderedText(escape, "{{" + ("#" + section) + "}}" + ("{{" + name + "}}") + ("{{" + ("/" + section) + "}}"), root)
            == Some(OwnValues(escape, Entry(root, section).items, name))
  {
    hide RenderedText, FindNode, Show, Each, Meaning;
    SectionMeans(escape, false, section, Tag(Variable, name), root);
    EntryIsFound(root, section);
    EmptyIff(Entry(root, section));
    EachOwnValue(escape, root, Entry(root, section).items, name);
    EachNone(escape, [root], [Leaf(Tag(Variable, name))]);
  }

  lemma EachNone(escape: string -> string, stack: seq<Node>, body: seq<Tree>)
    ensures Each(escape, stack, [], body) == ""
  {
  }

  lemma RawOfOne(t: Token)
    ensures Raw([t]) == t.raw
  {
    assert [t][1..] == [];
    EmptyRight(t.raw);
  }

  // --- single tags -----------------------------------------------------------------------------

  lemma TagMeans(escape: string -> string, t: Token, root: Node)
    requires PrintedTag(t) && !IsTag(t)
    ensures RenderedText(escape, t.raw, root) == Some(Plain(escape, [root], t))
  {
    hide RenderedText, Plain;
    var f := [Leaf(t)];
    FlattenHead(f);
    assert f[1..] == [] && Flatten(f) == [t] && WellNamed(f);
    RawOfOne(t);
    VisibleLine([t], 0);
    TemplateMeansTree(escape, f, root);
    OneTree(escape, root, f[0]);
  }

  /** Two braces print a string escaped, three or an ampersand as it is; numbers and booleans print the same
      either way, and what is absent, a map or an array prints nothing. */
  lemma VariablePrints(escape: string -> string, name: string, root: Node)
    requires PlainName(name) && Free(name, '.')
    ensures var n := Entry(root, name);
            var double := RenderedText(escape, "{{" + name + "}}", root);
            var triple := RenderedText(escape, "{{{" + name + "}}}", root);
            && triple == RenderedText(escape, "{{" + ("&" + name) + "}}", root)
            && (n.Str? ==> double == Some(escape(n.s)) && triple == Some(n.s))
            && (!n.Str? ==> double == triple)
            && (n.UInt64? ==> triple == Some(Print(n.u)))
            && (n.UInt32? ==> triple == Some(Print(n.u32)))
            && (n.Int? ==> triple == Some(if n.i < 0 then "-" + Print(-n.i) else Print(n.i)))
            && (n.Int64? ==> triple == Some(if n.i64 < 0 then "-" + Print(-n.i64) else Print(n.i64)))
            && (n.Double? ==> triple == Some(n.shown))
            && (n.Bool? ==> triple == Some(if n.b then "true" else "false"))
            && (n.Null? || n.Map? || n.Array? ==> triple == Some(""))
  {
    hide RenderedText, FindNode;
    TagMeans(escape, Tag(Variable, name), root);
    TagMeans(escape, Tag(Unescaped, name), root);
    TagMeans(escape, TripleTag(name), root);
    EntryIsFound(root, name);
  }

  /** A comment prints nothing. */
  lemma CommentPrintsNothing(escape: string -> string, name: string, root: Node)
    requires PlainName(name)
    ensures RenderedText(escape, "{{" + ("!" + name) + "}}", root) == Some("")
  {
    hide Tokens, Strip, Raw, Stream;
    var t := Tag(Comment, name);
    RawOfOne(t);
    TokenizeAfterPrint([t]);
    LoneTagIsStripped(t);
    StreamStep(escape, t, [], [root], Outside);
    EmptyRight([t]);
    StreamNone(escape, [root]);
  }

  lemma StreamNone(escape: string -> string, stack: seq<Node>)
    ensures Stream(escape, [], stack, Outside) == ""
  {
  }

  lemma LoneTagIsStripped(t: Token)
    requires IsTag(t) && !t.kind.Partial? && !t.eol && !t.wsOnly
    ensures Strip([t] + [END_MARK]) == [t]
  {
    var line := [t] + [END_MARK];
    StripStandalone(line);
    assert line[0] == t && line[1..] == [END_MARK] && [END_MARK][1..] == [];
    assert NonBlank([END_MARK]) == NonBlank([]) == [];
    EmptyRight([t]);
  }
}
