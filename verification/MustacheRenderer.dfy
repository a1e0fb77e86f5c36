/** The renderer as the source runs it: a stack of contexts and a stack of states, changed in place. */
module MustacheRenderer {
  import opened MustacheNodes
  import opened Mustache

  function AfterAll(st: State, tokens: seq<Token>): (st': State)
    decreases |tokens|
  {
    if tokens == [] then st else AfterAll(After(st, tokens[0]), tokens[1..])
  }

  class RenderContext {
    const escape: string -> string
    var nodes: seq<Node>
    var states: seq<State>

    constructor (escape: string -> string, root: Node)
      ensures this.escape == escape && nodes == [root] && states == [Outside]
    {
      this.escape := escape;
      nodes := [root];
      states := [Outside];
    }

    /** render_context::push for the duration of one render, innermost context first. */
    method RenderPushed(node: Node, section: seq<Token>) returns (out: string)
      modifies this
      ensures nodes == old(nodes) && states == old(states)
      ensures out == Stream(escape, section, [node] + old(nodes), Outside)
      decreases |section|, |section| + 1, 0
    {
      nodes := [node] + nodes;
      states := [Outside] + states;
      out := Render(section);
      nodes := nodes[1..];
      states := states[1..];
    }

    method RenderItems(items: seq<Node>, section: seq<Token>) returns (out: string)
      modifies this
      ensures nodes == old(nodes) && states == old(states)
      ensures out == ItemsText(escape, old(nodes), items, section)
      decreases |section|, |section| + 2, 0
    {
      out := "";
      for i := 0 to |items|
        invariant nodes == old(nodes) && states == old(states)
        invariant out + ItemsText(escape, nodes, items[i..], section) == ItemsText(escape, nodes, items, section)
      {
        assert items[i..][1..] == items[i + 1..];
        var text := RenderPushed(items[i], section);
        out := out + text;
      }
    }

    method RenderSection(inverted: bool, name: string, section: seq<Token>) returns (out: string)
      modifies this
      ensures nodes == old(nodes) && states == old(states)
      ensures out == SectionText(escape, old(nodes), inverted, name, section)
      decreases |section|, |section| + 3, 0
    {
      var node := FindByName(name, nodes);
      out := "";
      if !inverted && !IsEmpty(node) {
        if node.Array? {
          out := RenderItems(node.items, section);
        } else {
          out := RenderPushed(node, section);
        }
      } else if inverted && IsEmpty(node) {
        out := RenderPushed(Null, section);
      }
    }

    /** One token in the top state; the top state may be replaced. */
    method RenderToken(t: Token) returns (out: string)
      requires states != []
      modifies this
      ensures nodes == old(nodes) && states == [After(old(states)[0], t)] + old(states)[1..]
      ensures out == Emit(escape, old(nodes), old(states)[0], t)
      decreases states[0].Size() + 1, 0, 0
    {
      hide SectionText, FindNode;
      out := "";
      match states[0]
      case Outside =>
        if t.Opens() {
          states := [Inside(t.kind.InvertedOpen?, t.name, [], 0)] + states[1..];
        } else if t.kind.Variable? {
          var node := FindByName(t.name, nodes);
          out := Show(escape, true, node);
        } else if t.kind.Unescaped? {
          var node := FindByName(t.name, nodes);
          out := Show(escape, false, node);
        } else if t.kind.TextKind? {
          out := t.raw;
        }
      case Inside(inverted, name, section, skipped) =>
        if t.kind.SectionClose? && t.name == name && skipped == 0 {
          out := RenderSection(inverted, name, section);
          states := [Outside] + states[1..];
        } else {
          var counter := if t.kind.SectionClose? then skipped - 1 else if t.Opens() then skipped + 1 else skipped;
          states := [Inside(inverted, name, section + [t], counter)] + states[1..];
        }
    }

    method Render(tokens: seq<Token>) returns (output: string)
      requires states != []
      modifies this
      ensures nodes == old(nodes) && states == [AfterAll(old(states)[0], tokens)] + old(states)[1..]
      ensures output == Stream(escape, tokens, old(nodes), old(states)[0])
      decreases states[0].Size() + |tokens|, |tokens|, 0
    {
      output := "";
      var i := 0;
      while i < |tokens|
        invariant i <= |tokens| && nodes == old(nodes)
        invariant |states| == |old(states)| && states[1..] == old(states)[1..]
        invariant states[0].Size() <= old(states)[0].Size() + i
        invariant AfterAll(states[0], tokens[i..]) == AfterAll(old(states)[0], tokens)
        invariant output + Stream(escape, tokens[i..], nodes, states[0]) == Stream(escape, tokens, nodes, old(states)[0])
      {
        assert tokens[i..][1..] == tokens[i + 1..];
        var text := RenderToken(tokens[i]);
        output := output + text;
        i := i + 1;
      }
    }
  }

  /** Rendering balanced tokens from a fresh context prints the tree's meaning under the root node. */
  method RenderTemplate(escape: string -> string, root: Node, tokens: seq<Token>) returns (output: string)
    ensures output == Stream(escape, tokens, [root], Outside)
    ensures Balanced(tokens, []) ==>
              exists f :: WellNamed(f) && Flatten(f) == tokens && output == Meaning(escape, [root], f)
  {
    var context := new RenderContext(escape, root);
    output := context.Render(tokens);
    if Balanced(tokens, []) {
      ghost var f := BalancedTokensMeanTree(escape, tokens, [root]);
    }
  }
}
