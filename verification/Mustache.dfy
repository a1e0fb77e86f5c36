/** The streaming section renderer (ext/mstch: render_context, outside_section, in_section, render_section)
    and the tree semantics it should have. */
module Mustache {
  import opened Basics
  import opened MustacheNodes

  datatype Kind = TextKind | Variable | SectionOpen | SectionClose | InvertedOpen | Unescaped | Comment | Partial | DelimiterChange

  datatype Token = Token(kind: Kind, name: string, raw: string, prefix: string, eol: bool, wsOnly: bool)
  {
    predicate Opens() {
      kind.SectionOpen? || kind.InvertedOpen?
    }
  }

  // --- the streaming machine -------------------------------------------------------------------

  /** outside_section, or in_section with its collected tokens and its counter of skipped openings. */
  datatype State = Outside | Inside(inverted: bool, name: string, section: seq<Token>, skipped: int)
  {
    function Size(): (n: nat) {
      if Outside? then 0 else |section|
    }
  }

  predicate Closes(st: State, t: Token) {
    st.Inside? && t.kind.SectionClose? && t.name == st.name && st.skipped == 0
  }

  /** The state after a token. */
  function After(st: State, t: Token): (st': State)
    ensures st'.Size() <= st.Size() + 1
  {
    match st
    case Outside =>
      if t.Opens() then Inside(t.kind.InvertedOpen?, t.name, [], 0) else Outside
    case Inside(inverted, name, section, skipped) =>
      if Closes(st, t) then Outside
      else Inside(inverted, name, section + [t],
                  if t.kind.SectionClose? then skipped - 1 else if t.Opens() then skipped + 1 else skipped)
  }

  /** What a token outside every section prints. No partials are registered, so a partial prints nothing. */
  function Plain(escape: string -> string, stack: seq<Node>, t: Token): (out: string) {
    match t.kind
    case Variable => Show(escape, true, FindNode(t.name, stack))
    case Unescaped => Show(escape, false, FindNode(t.name, stack))
    case TextKind => t.raw
    case _ => ""
  }

  /** What a token prints in a state. */
  function Emit(escape: string -> string, stack: seq<Node>, st: State, t: Token): (out: string)
    decreases st.Size() + 1, 0, 0
  {
    if st.Outside? then Plain(escape, stack, t)
    else if Closes(st, t) then SectionText(escape, stack, st.inverted, st.name, st.section)
    else ""
  }

  function SectionText(escape: string -> string, stack: seq<Node>, inverted: bool, name: string, section: seq<Token>): (out: string)
    decreases |section|, |section| + 2, 0
  {
    var node := FindNode(name, stack);
    if !inverted && !IsEmpty(node) then
      if node.Array? then ItemsText(escape, stack, node.items, section)
      else Stream(escape, section, [node] + stack, Outside)
    else if inverted && IsEmpty(node) then Stream(escape, section, [Null] + stack, Outside)
    else ""
  }

  /** A section over an array renders its tokens once per item; an item that is itself an array is pushed whole. */
  function ItemsText(escape: string -> string, stack: seq<Node>, items: seq<Node>, section: seq<Token>): (out: string)
    decreases |section|, |section| + 1, |items|
  {
    if items == [] then ""
    else Stream(escape, section, [items[0]] + stack, Outside) + ItemsText(escape, stack, items[1..], section)
  }

  /** Feeding tokens one by one. It terminates because a collected section is shorter than what was fed. */
  function Stream(escape: string -> string, tokens: seq<Token>, stack: seq<Node>, st: State): (out: string)
    decreases st.Size() + |tokens|, |tokens|, 0
  {
    if tokens == [] then ""
    else Emit(escape, stack, st, tokens[0]) + Stream(escape, tokens[1..], stack, After(st, tokens[0]))
  }

  // --- tree semantics --------------------------------------------------------------------------

  datatype Tree = Leaf(token: Token) | Section(open: Token, body: seq<Tree>, close: Token)

  predicate WellNamed(f: seq<Tree>)
    decreases f
  {
    f == [] || (WellNamedTree(f[0]) && WellNamed(f[1..]))
  }

  predicate WellNamedTree(t: Tree)
    decreases t
  {
    match t
    case Leaf(token) => !token.Opens() && !token.kind.SectionClose?
    case Section(open, body, close) =>
      open.Opens() && close.kind.SectionClose? && close.name == open.name && WellNamed(body)
  }

  function Flatten(f: seq<Tree>): (tokens: seq<Token>)
    decreases f
  {
    if f == [] then []
    else
      (match f[0]
       case Leaf(t) => [t]
       case Section(open, body, close) => [open] + Flatten(body) + [close])
      + Flatten(f[1..])
  }

  /** Meaning of a forest in a stack of contexts, by recursion on the tree. */
  function Meaning(escape: string -> string, stack: seq<Node>, f: seq<Tree>): (out: string)
    decreases f, 0
  {
    if f == [] then "" else TreeMeaning(escape, stack, f[0]) + Meaning(escape, stack, f[1..])
  }

  function TreeMeaning(escape: string -> string, stack: seq<Node>, t: Tree): (out: string)
    decreases t, 2
  {
    match t
    case Leaf(token) => Plain(escape, stack, token)
    case Section(open, body, _) =>
      var node := FindNode(open.name, stack);
      if open.kind.InvertedOpen? then
        if IsEmpty(node) then Meaning(escape, [Null] + stack, body) else ""
      else if IsEmpty(node) then ""
      else if node.Array? then Each(escape, stack, node.items, body)
      else Meaning(escape, [node] + stack, body)
  }

  function Each(escape: string -> string, stack: seq<Node>, items: seq<Node>, body: seq<Tree>): (out: string)
    decreases body, 1, |items|
  {
    if items == [] then ""
    else Meaning(escape, [items[0]] + stack, body) + Each(escape, stack, items[1..], body)
  }

  // --- the two agree ---------------------------------------------------------------------------

  lemma StreamStep(escape: string -> string, t: Token, rest: seq<Token>, stack: seq<Node>, st: State)
    ensures Stream(escape, [t] + rest, stack, st) == Emit(escape, stack, st, t) + Stream(escape, rest, stack, After(st, t))
  {
    assert ([t] + rest)[0] == t && ([t] + rest)[1..] == rest;
  }

  /** Inside a section, a well-named forest is collected verbatim and the counter of skipped openings
      returns to where it was. */
  lemma {:induction false} ForestIsCollected(
      escape: string -> string, f: seq<Tree>, rest: seq<Token>, stack: seq<Node>,
      inverted: bool, name: string, section: seq<Token>, skipped: nat)
    requires WellNamed(f)
    ensures Stream(escape, Flatten(f) + rest, stack, Inside(inverted, name, section, skipped))
         == Stream(escape, rest, stack, Inside(inverted, name, section + Flatten(f), skipped))
    decreases f
  {
    hide Emit, Stream;
    if f == [] {
      assert Flatten(f) + rest == rest && section + Flatten(f) == section;
    } else {
      var first := Flatten([f[0]]);
      FlattenHead(f);
      TreeIsCollected(escape, f[0], Flatten(f[1..]) + rest, stack, inverted, name, section, skipped);
      ForestIsCollected(escape, f[1..], rest, stack, inverted, name, section + first, skipped);
      Assoc(first, Flatten(f[1..]), rest);
      Assoc(section, first, Flatten(f[1..]));
    }
  }

  lemma FlattenHead(f: seq<Tree>)
    requires f != []
    ensures Flatten(f) == Flatten([f[0]]) + Flatten(f[1..])
    ensures Flatten([f[0]]) == match f[0]
                               case Leaf(t) => [t]
                               case Section(open, body, close) => [open] + Flatten(body) + [close]
  {
    assert [f[0]][1..] == [];
  }

  lemma {:induction false} TreeIsCollected(
      escape: string -> string, t: Tree, rest: seq<Token>, stack: seq<Node>,
      inverted: bool, name: string, section: seq<Token>, skipped: nat)
    requires WellNamedTree(t)
    ensures Stream(escape, Flatten([t]) + rest, stack, Inside(inverted, name, section, skipped))
         == Stream(escape, rest, stack, Inside(inverted, name, section + Flatten([t]), skipped))
    decreases t
  {
    hide Emit, Stream, Flatten;
    FlattenHead([t]);
    var st := Inside(inverted, name, section, skipped);
    match t
    case Leaf(token) =>
      CollectOne(escape, token, rest, stack, st);
    case Section(open, body, close) =>
      var inner := Flatten(body);
      Assoc([open] + inner, [close], rest);
      Assoc([open], inner, [close] + rest);
      CollectOne(escape, open, inner + ([close] + rest), stack, st);
      ForestIsCollected(escape, body, [close] + rest, stack, inverted, name, section + [open], skipped + 1);
      CollectOne(escape, close, rest, stack, Inside(inverted, name, section + [open] + inner, skipped + 1));
      Assoc(section, [open] + inner, [close]);
      Assoc(section, [open], inner);
  }

  lemma CollectOne(escape: string -> string, t: Token, rest: seq<Token>, stack: seq<Node>, st: State)
    requires st.Inside? && !Closes(st, t)
    ensures Stream(escape, [t] + rest, stack, st) == Stream(escape, rest, stack, After(st, t))
  {
    hide Stream;
    StreamStep(escape, t, rest, stack, st);
    assert "" + Stream(escape, rest, stack, After(st, t)) == Stream(escape, rest, stack, After(st, t));
  }

  /** A whole section, fed from its opening tag to its closing tag, prints what its collected body prints. */
  lemma SectionIsRendered(escape: string -> string, open: Token, body: seq<Tree>, close: Token, rest: seq<Token>, stack: seq<Node>)
    requires open.Opens() && close.kind.SectionClose? && close.name == open.name && WellNamed(body)
    ensures Stream(escape, [open] + Flatten(body) + [close] + rest, stack, Outside)
         == SectionText(escape, stack, open.kind.InvertedOpen?, open.name, Flatten(body)) + Stream(escape, rest, stack, Outside)
  {
    hide SectionText, Stream;
    var inverted, name := open.kind.InvertedOpen?, open.name;
    assert [open] + Flatten(body) + [close] + rest == [open] + (Flatten(body) + ([close] + rest));
    StreamStep(escape, open, Flatten(body) + ([close] + rest), stack, Outside);
    ForestIsCollected(escape, body, [close] + rest, stack, inverted, name, [], 0);
    assert [] + Flatten(body) == Flatten(body);
    StreamStep(escape, close, rest, stack, Inside(inverted, name, Flatten(body), 0));
  }

  /** Streaming a well-named forest, whatever follows it, prints its meaning and leaves the machine outside. */
  lemma {:induction false} StreamMeansTree(escape: string -> string, f: seq<Tree>, rest: seq<Token>, stack: seq<Node>)
    requires WellNamed(f)
    ensures Stream(escape, Flatten(f) + rest, stack, Outside)
         == Meaning(escape, stack, f) + Stream(escape, rest, stack, Outside)
    decreases f, 0
  {
    hide Stream, TreeMeaning, WellNamedTree;
    if f == [] {
      assert Flatten(f) + rest == rest;
    } else {
      var first, more := Flatten([f[0]]), Flatten(f[1..]);
      FlattenHead(f);
      hide Flatten;
      Assoc(first, more, rest);
      OneTreeMeans(escape, f[0], more + rest, stack);
      StreamMeansTree(escape, f[1..], rest, stack);
      Assoc(TreeMeaning(escape, stack, f[0]), Meaning(escape, stack, f[1..]), Stream(escape, rest, stack, Outside));
    }
  }

  lemma {:induction false} OneTreeMeans(escape: string -> string, t: Tree, rest: seq<Token>, stack: seq<Node>)
    requires WellNamedTree(t)
    ensures Stream(escape, Flatten([t]) + rest, stack, Outside)
         == TreeMeaning(escape, stack, t) + Stream(escape, rest, stack, Outside)
    decreases t
  {
    FlattenHead([t]);
    hide Stream, Flatten, TreeMeaning, SectionText;
    match t
    case Leaf(token) =>
      LeafMeans(escape, token, stack);
      StreamStep(escape, token, rest, stack, Outside);
    case Section(open, body, close) =>
      SectionIsRendered(escape, open, body, close, rest, stack);
      BodyMeansTree(escape, stack, open, body, close);
  }

  lemma LeafMeans(escape: string -> string, token: Token, stack: seq<Node>)
    requires !token.Opens()
    ensures Emit(escape, stack, Outside, token) == TreeMeaning(escape, stack, Leaf(token)) && After(Outside, token) == Outside
  {
  }

  lemma {:induction false} BodyMeansTree(escape: string -> string, stack: seq<Node>, open: Token, body: seq<Tree>, close: Token)
    requires WellNamed(body) && open.Opens()
    ensures SectionText(escape, stack, open.kind.InvertedOpen?, open.name, Flatten(body))
         == TreeMeaning(escape, stack, Section(open, body, close))
    decreases body, 3
  {
    hide Stream, Meaning, FindNode;
    var node := FindNode(open.name, stack);
    WholeForest(escape, body, [Null] + stack);
    WholeForest(escape, body, [node] + stack);
    if node.Array? {
      ItemsMeanEach(escape, stack, node.items, body);
    }
  }

  lemma {:induction false} WholeForest(escape: string -> string, f: seq<Tree>, stack: seq<Node>)
    requires WellNamed(f)
    ensures Stream(escape, Flatten(f), stack, Outside) == Meaning(escape, stack, f)
    decreases f, 1
  {
    StreamMeansTree(escape, f, [], stack);
    assert Flatten(f) + [] == Flatten(f);
  }

  lemma {:induction false} ItemsMeanEach(escape: string -> string, stack: seq<Node>, items: seq<Node>, body: seq<Tree>)
    requires WellNamed(body)
    ensures ItemsText(escape, stack, items, Flatten(body)) == Each(escape, stack, items, body)
    decreases body, 2, |items|
  {
    if items != [] {
      WholeForest(escape, body, [items[0]] + stack);
      ItemsMeanEach(escape, stack, items[1..], body);
    }
  }

  // --- token sequences -------------------------------------------------------------------------

  /** Every closing tag names the innermost open section, and none stays open. */
  predicate Balanced(tokens: seq<Token>, open: seq<string>)
    decreases |tokens|
  {
    if tokens == [] then open == []
    else if tokens[0].Opens() then Balanced(tokens[1..], [tokens[0].name] + open)
    else if tokens[0].kind.SectionClose? then
      open != [] && open[0] == tokens[0].name && Balanced(tokens[1..], open[1..])
    else Balanced(tokens[1..], open)
  }

  /** A balanced sequence starts with a forest, up to its end or to the tag closing the innermost section. */
  lemma {:induction false} BalancedStartsWithForest(tokens: seq<Token>, open: seq<string>) returns (f: seq<Tree>, rest: seq<Token>)
    requires Balanced(tokens, open)
    ensures WellNamed(f) && tokens == Flatten(f) + rest
    ensures open == [] ==> rest == []
    ensures open != [] ==> rest != [] && rest[0].kind.SectionClose? && rest[0].name == open[0] && Balanced(rest[1..], open[1..])
    decreases |tokens|
  {
    if tokens == [] || tokens[0].kind.SectionClose? {
      f, rest := [], tokens;
      return;
    }
    if tokens[0].Opens() {
      var body, after := BalancedStartsWithForest(tokens[1..], [tokens[0].name] + open);
      assert ([tokens[0].name] + open)[1..] == open;
      var more;
      more, rest := BalancedStartsWithForest(after[1..], open);
      f := [Section(tokens[0], body, after[0])] + more;
      SectionFirst(tokens, body, after, more, rest);
    } else {
      var more;
      more, rest := BalancedStartsWithForest(tokens[1..], open);
      f := [Leaf(tokens[0])] + more;
      FlattenHead(f);
      assert f[1..] == more;
      assert tokens == [tokens[0]] + (Flatten(more) + rest);
    }
  }

  lemma SectionFirst(tokens: seq<Token>, body: seq<Tree>, after: seq<Token>, more: seq<Tree>, rest: seq<Token>)
    requires tokens != [] && after != [] && WellNamed(body) && WellNamed(more)
    requires tokens[0].Opens() && after[0].kind.SectionClose? && after[0].name == tokens[0].name
    requires tokens[1..] == Flatten(body) + after && after[1..] == Flatten(more) + rest
    ensures var f := [Section(tokens[0], body, after[0])] + more;
            WellNamed(f) && tokens == Flatten(f) + rest
  {
    var f := [Section(tokens[0], body, after[0])] + more;
    FlattenHead(f);
    hide Flatten;
    assert f[1..] == more;
    Reassemble(tokens, Flatten(body), after, Flatten(more), rest);
  }

  lemma Reassemble(tokens: seq<Token>, inner: seq<Token>, after: seq<Token>, more: seq<Token>, rest: seq<Token>)
    requires tokens != [] && after != [] && tokens[1..] == inner + after && after[1..] == more + rest
    ensures tokens == [tokens[0]] + inner + [after[0]] + more + rest
  {
    assert tokens == [tokens[0]] + tokens[1..];
    assert after == [after[0]] + after[1..];
  }

  /** For every balanced token sequence the streaming renderer prints the meaning of a tree with exactly
      those tokens. */
  lemma {:induction false} BalancedTokensMeanTree(escape: string -> string, tokens: seq<Token>, stack: seq<Node>) returns (f: seq<Tree>)
    requires Balanced(tokens, [])
    ensures WellNamed(f) && Flatten(f) == tokens
    ensures Stream(escape, tokens, stack, Outside) == Meaning(escape, stack, f)
  {
    var rest;
    f, rest := BalancedStartsWithForest(tokens, []);
    assert tokens == Flatten(f);
    WholeForest(escape, f, stack);
  }
}
