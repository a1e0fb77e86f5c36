/** Template data and name lookup (ext/mstch: mstch.hpp, the visitors, render_context::find_node). */
module MustacheNodes {
  import opened Decimal
  import opened Text

  /** A data node; callbacks and objects with methods are not part of this model. A double carries the text
      the stream prints for it. */
  datatype Node =
    | Null
    | Str(s: string)
    | Int(i: int)
    | Double(isZero: bool, shown: string)
    | Bool(b: bool)
    | UInt64(u: nat)
    | Int64(i64: int)
    | UInt32(u32: nat)
    | Map(entries: map<string, Node>)
    | Array(items: seq<Node>)

  function ShowInt(n: int): (s: string) {
    if n < 0 then "-" + Print(-n) else Print(n)
  }

  /** Of the numbers, only int and double have an empty value: a 64- or 32-bit zero is not empty. */
  predicate IsEmpty(n: Node) {
    match n
    case Null => true
    case Int(i) => i == 0
    case Double(isZero, _) => isZero
    case Bool(b) => !b
    case Str(s) => s == ""
    case Array(items) => items == []
    case _ => false
  }

  function Show(escape: string -> string, escaped: bool, n: Node): (out: string) {
    match n
    case Int(i) => ShowInt(i)
    case Double(_, shown) => shown
    case UInt64(u) => Print(u)
    case Int64(i) => ShowInt(i)
    case UInt32(u) => Print(u)
    case Bool(b) => if b then "true" else "false"
    case Str(s) => if escaped then escape(s) else s
    case _ => ""
  }

  predicate HasToken(name: string, n: Node) {
    if n.Map? then name in n.entries else name == "."
  }

  function GetToken(name: string, n: Node): (out: Node)
    requires HasToken(name, n)
  {
    if n.Map? then n.entries[name] else n
  }

  /** The innermost context that has the name. */
  function Lookup(name: string, stack: seq<Node>): (out: Node) {
    if stack == [] then Null
    else if HasToken(name, stack[0]) then GetToken(name, stack[0])
    else Lookup(name, stack[1..])
  }

  function LastDot(token: string): (i: int)
    ensures -1 <= i < |token| && (i >= 0 ==> token[i] == '.')
    ensures forall k :: i < k < |token| ==> token[k] != '.'
  {
    if token == "" then -1
    else if token[|token| - 1] == '.' then |token| - 1
    else LastDot(token[..|token| - 1])
  }

  /** find_node: split at the last dot, look the left part up, then the right part in what it found. */
  function FindNode(token: string, stack: seq<Node>): (out: Node)
    decreases |token|
  {
    var dot := LastDot(token);
    if token != "." && dot >= 0 then FindNode(token[dot + 1..], [FindNode(token[..dot], stack)])
    else Lookup(token, stack)
  }

  lemma {:induction false} FindAtLastDot(token: string, stack: seq<Node>)
    requires LastDot(token) >= 0 && token != "."
    ensures var dot := LastDot(token);
            FindNode(token, stack) == FindNode(token[dot + 1..], [FindNode(token[..dot], stack)])
  {
    hide Lookup, LastDot;
  }

  lemma {:induction false} UnsplitIsLookup(token: string, stack: seq<Node>)
    requires token == "." || forall k :: 0 <= k < |token| ==> token[k] != '.'
    ensures FindNode(token, stack) == Lookup(token, stack)
  {
    hide Lookup, LastDot;
  }

  method FindByName(token: string, stack: seq<Node>) returns (out: Node)
    ensures out == FindNode(token, stack)
    decreases |token|
  {
    hide FindNode, LastDot;
    var dot := LastDot(token);
    if token != "." && dot >= 0 {
      FindAtLastDot(token, stack);
      var left := FindByName(token[..dot], stack);
      out := FindByName(token[dot + 1..], [left]);
      return;
    }
    UnsplitIsLookup(token, stack);
    for i := 0 to |stack|
      invariant Lookup(token, stack) == Lookup(token, stack[i..])
    {
      if HasToken(token, stack[i]) {
        return GetToken(token, stack[i]);
      }
      assert stack[i..][1..] == stack[i + 1..];
    }
    out := Null;
  }

  // --- which context wins ----------------------------------------------------------------------

  predicate BindsName(n: Node, name: string) {
    n.Map? && name in n.entries
  }

  /** A name without a dot means the entry of the innermost map that has it. */
  lemma InnermostWins(name: string, stack: seq<Node>, i: nat)
    requires Free(name, '.') && i < |stack| && BindsName(stack[i], name)
    requires forall k :: 0 <= k < i ==> !BindsName(stack[k], name)
    ensures FindNode(name, stack) == stack[i].entries[name]
  {
    hide FindNode, Lookup;
    UnsplitIsLookup(name, stack);
    LookupInnermost(name, stack, i);
  }

  lemma {:induction false} LookupInnermost(name: string, stack: seq<Node>, i: nat)
    requires Free(name, '.') && i <= |stack| && forall k :: 0 <= k < i ==> !BindsName(stack[k], name)
    ensures i == |stack| ==> Lookup(name, stack) == Null
    ensures i < |stack| && BindsName(stack[i], name) ==> Lookup(name, stack) == stack[i].entries[name]
    decreases i
  {
    assert name != "." by {
      assert "."[0] == '.';
    }
    if i > 0 {
      LookupInnermost(name, stack[1..], i - 1);
    }
  }

  /** A name without a dot that no map of the stack has means nothing. */
  lemma UnboundIsNull(name: string, stack: seq<Node>)
    requires Free(name, '.') && forall k :: 0 <= k < |stack| ==> !BindsName(stack[k], name)
    ensures FindNode(name, stack) == Null
  {
    hide FindNode, Lookup;
    UnsplitIsLookup(name, stack);
    LookupInnermost(name, stack, |stack|);
  }

  /** A lone dot means the innermost context that is not a map, as for the items of a plain array. */
  lemma DotIsTheItem(n: Node, stack: seq<Node>)
    requires !n.Map?
    ensures FindNode(".", [n] + stack) == n
  {
    UnsplitIsLookup(".", [n] + stack);
  }

  /** The nodes that count as empty. */
  lemma EmptyIff(n: Node)
    ensures IsEmpty(n) <==>
              || n == Null || n == Int(0) || n == Bool(false) || n == Str("") || n == Array([])
              || (n.Double? && n.isZero)
  {
  }

  // --- dotted names, left to right -------------------------------------------------------------

  function Walk(n: Node, path: seq<string>): (out: Node)
    decreases |path|
  {
    if path == [] then n else Walk(Lookup(path[0], [n]), path[1..])
  }

  /** The usual reading of a dotted name: the first part through the context stack, each further part
      inside what the previous one found. */
  function Resolve(path: seq<string>, stack: seq<Node>): (out: Node)
    requires path != []
  {
    Walk(Lookup(path[0], stack), path[1..])
  }

  lemma {:induction false} WalkSnoc(n: Node, path: seq<string>, last: string)
    ensures Walk(n, path + [last]) == Lookup(last, [Walk(n, path)])
    decreases |path|
  {
    if path != [] {
      WalkSnoc(Lookup(path[0], [n]), path[1..], last);
      assert (path + [last])[1..] == path[1..] + [last];
    } else {
      assert (path + [last])[1..] == [];
      assert Walk(Lookup(last, [n]), []) == Lookup(last, [n]);
    }
  }

  lemma {:induction false} SplitAtLastDot(token: string, dot: nat, from: nat)
    requires from <= dot < |token| && token[dot] == '.'
    requires forall k :: dot < k < |token| ==> token[k] != '.'
    ensures Split(token, '.', from) == Split(token[..dot], '.', from) + [token[dot + 1..]]
    decreases |token| - from
  {
    var left := token[..dot];
    var end := Find(token, '.', from);
    assert forall k :: 0 <= k < dot ==> left[k] == token[k];
    if end == dot {
      assert Find(left, '.', from) == |left|;
      assert token[from..end] == left[from..];
      assert Split(token, '.', dot + 1) == [token[dot + 1..]];
    } else {
      assert end < dot;
      assert Find(left, '.', from) == end;
      assert token[from..end] == left[from..end];
      SplitAtLastDot(token, dot, end + 1);
    }
  }

  lemma {:induction false} SplitWithoutDot(token: string)
    requires LastDot(token) < 0
    ensures Split(token, '.', 0) == [token]
  {
    assert Find(token, '.', 0) == |token|;
    assert token[0..] == token;
  }

  lemma ResolveSnoc(path: seq<string>, last: string, stack: seq<Node>)
    requires path != []
    ensures Resolve(path + [last], stack) == Lookup(last, [Resolve(path, stack)])
  {
    WalkSnoc(Lookup(path[0], stack), path[1..], last);
    assert (path + [last])[1..] == path[1..] + [last];
  }

  lemma ResolveOne(name: string, stack: seq<Node>)
    ensures Resolve([name], stack) == Lookup(name, stack)
  {
  }

  predicate TwoDotsFirst(token: string) {
    |token| >= 2 && token[0] == '.' && token[1] == '.'
  }

  /** For every name that does not begin with two dots, splitting at the last dot means the same as
      resolving the parts from left to right. */
  lemma {:induction false} DottedNameResolvesLeftToRight(token: string, stack: seq<Node>)
    requires !TwoDotsFirst(token) && token != "."
    ensures FindNode(token, stack) == Resolve(Split(token, '.', 0), stack)
    decreases |token|
  {
    hide Resolve, Lookup, Split, FindNode, LastDot;
    var dot := LastDot(token);
    if dot < 0 {
      UnsplitIsLookup(token, stack);
      ResolveOne(token, stack);
      SplitWithoutDot(token);
    } else {
      var left, right := token[..dot], token[dot + 1..];
      assert |left| >= 1 ==> left[0] == token[0];
      DottedNameResolvesLeftToRight(left, stack);
      FindAtLastDot(token, stack);
      SplitAtLastDot(token, dot, 0);
      ResolveSnoc(Split(left, '.', 0), right, stack);
      UnsplitIsLookup(right, [FindNode(left, stack)]);
    }
  }

  // --- names that begin with two dots ----------------------------------------------------------

  /** Of a name that begins with two dots, the leading dot is looked up as a name of its own. */
  lemma {:induction false} TwoDotsLookUpTheFirst(token: string, stack: seq<Node>)
    requires TwoDotsFirst(token)
    ensures |Split(token, '.', 0)| >= 3
    ensures FindNode(token, stack) == Walk(Lookup(".", stack), Split(token, '.', 0)[2..])
    decreases |token|
  {
    hide Lookup, Split, FindNode, LastDot;
    var dot := LastDot(token);
    var left, right := token[..dot], token[dot + 1..];
    FindAtLastDot(token, stack);
    SplitAtLastDot(token, dot, 0);
    var path := Split(left, '.', 0);
    UnsplitIsLookup(right, [FindNode(left, stack)]);
    if dot == 1 {
      assert left == ".";
      SplitLoneDot();
      UnsplitIsLookup(".", stack);
    } else {
      TwoDotsLookUpTheFirst(left, stack);
    }
    WalkSnoc(Lookup(".", stack), path[2..], right);
    assert (path + [right])[2..] == path[2..] + [right];
  }

  lemma SplitLoneDot()
    ensures Split(".", '.', 0) == ["", ""]
  {
    assert Find(".", '.', 0) == 0;
    assert Split(".", '.', 1) == [""];
  }

  /** Maps nested so that the path leads to a number. */
  function Nested(path: seq<string>): (n: Node) {
    if path == [] then Int(5) else Map(map[path[0] := Nested(path[1..])])
  }

  lemma {:induction false} WalkNested(path: seq<string>)
    ensures Walk(Nested(path), path) == Int(5)
    decreases |path|
  {
    if path != [] {
      WalkNested(path[1..]);
    }
  }

  lemma {:induction false} WalkNull(path: seq<string>)
    requires forall i :: 0 <= i < |path| ==> path[i] != "."
    ensures Walk(Null, path) == Null
    decreases |path|
  {
    if path != [] {
      assert Lookup(path[0], [Null]) == Lookup(path[0], []) == Null;
      WalkNull(path[1..]);
    }
  }

  lemma {:induction false} PartsHaveNoDot(token: string, from: nat)
    requires from <= |token|
    ensures forall i :: 0 <= i < |Split(token, '.', from)| ==> Split(token, '.', from)[i] != "."
    decreases |token| - from
  {
    var end := Find(token, '.', from);
    assert token[from..end] != ".";
    if end < |token| {
      PartsHaveNoDot(token, end + 1);
    }
  }

  /** On a map that has only a nested entry under the name ".", such a name finds what no reading from left
      to right can. */
  lemma TwoDotsDiffer(token: string)
    requires TwoDotsFirst(token)
    ensures |Split(token, '.', 0)| >= 3
    ensures var stack := [Map(map["." := Nested(Split(token, '.', 0)[2..])])];
            FindNode(token, stack) == Int(5) && Resolve(Split(token, '.', 0), stack) == Null
  {
    hide FindNode, Split;
    var path := Split(token, '.', 0);
    TwoDotsLookUpTheFirst(token, []);
    var stack := [Map(map["." := Nested(path[2..])])];
    TwoDotsLookUpTheFirst(token, stack);
    WalkNested(path[2..]);
    PartsHaveNoDot(token, 0);
    assert Lookup(path[0], stack) == Null;
    WalkNull(path[1..]);
  }

  /** Splitting at the last dot means resolving the parts from left to right, on every stack, exactly for the
      names that are not a lone dot and do not begin with two. */
  lemma LeftToRightIff(token: string)
    ensures (forall stack :: FindNode(token, stack) == Resolve(Split(token, '.', 0), stack))
            <==> token != "." && !TwoDotsFirst(token)
  {
    hide FindNode, Split, Resolve;
    if token == "." {
      var stack := [Int(5)];
      LoneDotDiffers(stack);
      assert FindNode(token, stack) != Resolve(Split(token, '.', 0), stack);
    } else if TwoDotsFirst(token) {
      TwoDotsDiffer(token);
    } else {
      forall stack ensures FindNode(token, stack) == Resolve(Split(token, '.', 0), stack) {
        DottedNameResolvesLeftToRight(token, stack);
      }
    }
  }

  lemma LoneDotDiffers(stack: seq<Node>)
    requires stack == [Int(5)]
    ensures FindNode(".", stack) == Int(5) && Resolve(Split(".", '.', 0), stack) == Null
  {
    SplitLoneDot();
    assert Lookup("", stack) == Null;
    assert Walk(Null, [""]) == Null;
  }
}
