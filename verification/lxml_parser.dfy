/** The line parser as the source makes it: nodes that refer to their children, a tree of roots and blocks, and a
    stack of the nodes that can still get children. */
module LxmlParser {
  import opened LxmlForest
  import opened LxmlReader
  import opened LxmlSpine

  class Node {
    const item: Item
    const depth: nat
    var nested: seq<Node>
    var html: seq<string>

    constructor (item: Item, depth: nat)
      ensures this.item == item && this.depth == depth && nested == [] && html == []
    {
      this.item, this.depth := item, depth;
      nested, html := [], [];
    }

    method AddNode(n: Node)
      modifies `nested
      ensures nested == old(nested) + [n]
    {
      nested := nested + [n];
    }

    method AddHTML(text: string)
      modifies `html
      ensures html == old(html) + [text]
    {
      html := html + [text];
    }
  }

  class NodeTree {
    var roots: seq<Node>
    var blocks: seq<Node>

    constructor ()
      ensures roots == [] && blocks == []
    {
      roots, blocks := [], [];
    }

    /** Definitions of blocks are kept apart. */
    method AddNode(n: Node)
      modifies this
      ensures blocks == old(blocks) + (if IsDefinition(n.item) then [n] else [])
      ensures roots == old(roots) + (if IsDefinition(n.item) then [] else [n])
    {
      if n.item.kind == BlockNode {
        if !n.item.link {
          blocks := blocks + [n];
          return;
        }
      }
      roots := roots + [n];
    }
  }

  /** r lists what stands at the given positions. */
  predicate Picks<T(==)>(all: seq<T>, at: seq<nat>, r: seq<T>) {
    |r| == |at| && forall k {:trigger r[k]} :: 0 <= k < |at| ==> at[k] < |all| && r[k] == all[at[k]]
  }

  lemma PickMore<T>(all: seq<T>, x: T, at: seq<nat>, r: seq<T>)
    requires Picks(all, at, r)
    ensures Picks(all + [x], at, r) && Picks(all + [x], at + [|all|], r + [x])
  {
    forall k | 0 <= k < |at| ensures at[k] < |all| && (r + [x])[k] == all[at[k]] == (all + [x])[at[k]] {
      var y := r[k];
    }
  }

  lemma PickKept<T>(all: seq<T>, at: seq<nat>, r: seq<T>, n: nat)
    requires Picks(all, at, r) && n <= |at|
    ensures Picks(all, at[..n], r[..n])
  {
    forall k | 0 <= k < n ensures at[k] < |all| && r[k] == all[at[k]] {
      var y := r[k];
    }
  }

  lemma PickLast<T>(all: seq<T>, at: seq<nat>, r: seq<T>)
    requires Picks(all, at, r) && r != []
    ensures at != [] && at[|at| - 1] < |all| && r[|r| - 1] == all[at[|at| - 1]]
  {
    var k := |r| - 1;
    var y := r[k];
  }

  predicate Separate(nodes: seq<Node>) {
    forall i, j :: 0 <= i < j < |nodes| ==> nodes[i] != nodes[j]
  }

  /** Every node has its entry's text, depth and HTML. */
  ghost predicate Says(nodes: seq<Node>, es: seq<Entry>)
    reads nodes
  {
    |nodes| == |es| && forall i :: 0 <= i < |nodes| ==>
      nodes[i].item == es[i].item && nodes[i].depth == es[i].depth && nodes[i].html == es[i].html
  }

  /** The children of every node are those of the net. */
  ghost predicate Hangs(nodes: seq<Node>, nested: seq<seq<nat>>)
    reads nodes
  {
    |nodes| == |nested| && forall i: nat {:trigger nodes[i].nested} :: i < |nodes| ==> Picks(nodes, nested[i], nodes[i].nested)
  }

  lemma SaysLater(nodes: seq<Node>, es: seq<Entry>, n: Node, x: Entry)
    requires Separate(nodes) && Says(nodes, es) && n !in nodes && n.item == x.item && n.depth == x.depth && n.html == x.html
    ensures Separate(nodes + [n]) && Says(nodes + [n], es + [x])
  {
  }

  /** A node that is linked into the tree has no children, and nobody has it as a child. */
  lemma HangsLater(nodes: seq<Node>, nested: seq<seq<nat>>, n: Node)
    requires Hangs(nodes, nested) && n.nested == []
    ensures Hangs(nodes + [n], nested + [[]])
  {
    var all, more := nodes + [n], nested + [[]];
    forall i: nat | i < |all| ensures Picks(all, more[i], all[i].nested) {
      if i < |nodes| { PickMore(nodes, n, nested[i], nodes[i].nested); }
    }
  }

  /** A node that is linked under the k-th becomes its last child. */
  lemma HangsUnder(nodes: seq<Node>, nested: seq<seq<nat>>, n: Node, k: nat, before: seq<Node>)
    requires |nodes| == |nested| && k < |nodes| && n.nested == []
    requires Picks(nodes, nested[k], before) && nodes[k].nested == before + [n]
    requires forall i: nat {:trigger nodes[i].nested} :: i < |nodes| && i != k ==> Picks(nodes, nested[i], nodes[i].nested)
    ensures Hangs(nodes + [n], nested[k := nested[k] + [|nodes|]] + [[]])
  {
    var all, more := nodes + [n], nested[k := nested[k] + [|nodes|]] + [[]];
    forall i: nat | i < |all| ensures Picks(all, more[i], all[i].nested) {
      if i == k {
        PickMore(nodes, n, nested[k], before);
      } else if i < |nodes| {
        PickMore(nodes, n, nested[i], nodes[i].nested);
      }
    }
  }

  lemma StackDropped(nodes: seq<Node>, at: seq<nat>, stack: seq<Node>, current: int, d: int)
    requires Picks(nodes, at, stack)
    ensures Picks(nodes, Dropped(at, current, d), Dropped(stack, current, d))
  {
    if 0 < current - d + 1 < |stack| { PickKept(nodes, at, stack, |stack| - (current - d + 1)); }
  }

  lemma HeadStep(r: Reader, shift: nat, item: Item, sound: bool)
    ensures var level := HeadLevel(r, shift, item, sound);
      Step(r, Head(shift, item, sound)) == if level.NoLevel? then Err(level.error)
        else Ok(Reader(r.es + [Entry(item, level.depth, [])], level.unit, false, r.line + 1))
  {
  }

  lemma HtmlStep(r: Reader, text: string)
    ensures Step(r, Html(text)) == if r.es == [] then Err(LooseHtml) else Ok(Reader(AddHtml(r.es, text), r.unit, true, r.line + 1))
  {
  }

  lemma NextNet(es: seq<Entry>, x: Entry, net: Net)
    requires net == NetOf(es)
    ensures LinkNext(net, Depth(es), x) == NetOf(es + [x])
  {
  }

  /** The top of the stack is the node read last. */
  lemma TopOfStack(nodes: seq<Node>, at: seq<nat>, stack: seq<Node>)
    requires Picks(nodes, at, stack) && (nodes != [] ==> at != [] && at[|at| - 1] == |nodes| - 1)
    ensures if stack == [] then nodes == [] else nodes != [] && stack[|stack| - 1] == nodes[|nodes| - 1]
  {
    if stack != [] { PickLast(nodes, at, stack); }
  }

  class Parser {
    const tree: NodeTree
    var stack: seq<Node>
    var currentDepth: nat
    var stdShift: nat
    var inHtml: bool
    var currentLine: nat
    ghost var nodes: seq<Node>
    ghost var es: seq<Entry>

    constructor ()
      ensures Valid() && Now() == START && fresh(tree) && nodes == []
    {
      tree := new NodeTree();
      stack, currentDepth, stdShift, inHtml, currentLine := [], 0, 0, false, 0;
      nodes, es := [], [];
    }

    ghost function Now(): Reader
      reads this
    {
      Reader(es, stdShift, inHtml, currentLine)
    }

    /** The nodes say what the entries say, and they are linked like the net of the entries. */
    ghost predicate Grown(net: Net)
      reads this`nodes, this`es, tree, nodes
    {
      && Separate(nodes) && Says(nodes, es) && Hangs(nodes, net.nested)
      && Picks(nodes, net.roots, tree.roots) && Picks(nodes, net.blocks, tree.blocks)
    }

    /** ... and the stack is the net's. */
    ghost predicate Stands(net: Net)
      reads this`nodes, this`es, this`stack, this`currentDepth, tree, nodes
    {
      Grown(net) && Picks(nodes, net.stack, stack) && currentDepth == Current(es)
    }

    ghost predicate Hung()
      reads this`nodes, this`es, this`stack, this`currentDepth, tree, nodes
    {
      Stands(NetOf(es))
    }

    /** ... and what has been read could be accepted. */
    ghost predicate Valid()
      reads this, tree, nodes
    {
      Hung() && Accepted(Now())
    }

    method GetDepth(shift: nat) returns (level: Level)
      modifies `stdShift
      ensures level == DepthOf(shift, old(stdShift), currentLine, currentDepth)
      ensures level.Level? ==> stdShift == level.unit
    {
      if shift == 0 {
        return Level(0, stdShift);
      }
      if stdShift == 0 {
        if currentLine == 0 {
          return NoLevel(FirstShifted);
        }
        stdShift := shift;
      }
      if shift % stdShift != 0 {
        return NoLevel(NotMultiple);
      }
      var depth := shift / stdShift;
      if depth > currentDepth + 1 {
        return NoLevel(TooDeep);
      }
      return Level(depth, stdShift);
    }

    /** nodeStack.Drop */
    method Drop(count: nat)
      modifies `stack
      ensures stack == if count >= |old(stack)| then [] else old(stack)[..|old(stack)| - count]
    {
      var l := |stack|;
      if count == 0 || l == 0 {
        return;
      }
      if count >= l {
        stack := [];
        return;
      }
      stack := stack[..l - count];
    }

    method NextLine()
      modifies `currentLine
      ensures currentLine == old(currentLine) + 1 && (old(Hung()) ==> Hung())
    {
      currentLine := currentLine + 1;
    }

    /** HTML belongs to the node read last; there must be one. */
    method AddHtmlLine(text: string, ghost net: Net) returns (ok: bool)
      requires Stands(net) && (nodes != [] ==> net.stack != [] && net.stack[|net.stack| - 1] == |nodes| - 1)
      modifies this`es, this`inHtml, nodes
      ensures ok <==> old(es) != []
      ensures ok ==> Stands(net) && inHtml && es == AddHtml(old(es), text)
    {
      TopOfStack(nodes, net.stack, stack);
      if stack == [] {
        return false;
      }
      var top := stack[|stack| - 1];
      top.AddHTML(text);
      es := AddHtml(es, text);
      inHtml := true;
      return true;
    }

    method ParseHtml(text: string) returns (ok: bool)
      requires Hung()
      modifies this, nodes
      ensures ok <==> old(es) != []
      ensures ok ==> Hung() && es == AddHtml(old(es), text)
      ensures ok ==> inHtml && currentLine == old(currentLine) + 1 && stdShift == old(stdShift)
      ensures nodes == old(nodes)
    {
      if es != [] { SameNet(es, AddHtml(es, text)); }
      ok := AddHtmlLine(text, NetOf(es));
      NextLine();
    }

    /** The new node goes under the top of the stack, or into the tree if the stack is empty. */
    method Link(n: Node, ghost net: Net, ghost current: int)
      requires Grown(net) && Picks(nodes, Dropped(net.stack, current, n.depth), stack)
      requires n !in nodes && n.nested == []
      modifies tree, nodes
      ensures Says(nodes, es)
      ensures var next := LinkNext(net, current, Entry(n.item, n.depth, []));
        && Hangs(nodes + [n], next.nested)
        && Picks(nodes + [n], next.roots, tree.roots) && Picks(nodes + [n], next.blocks, tree.blocks)
    {
      PickMore(nodes, n, net.roots, tree.roots);
      PickMore(nodes, n, net.blocks, tree.blocks);
      assert tree.roots + [] == tree.roots && tree.blocks + [] == tree.blocks;
      if stack == [] {
        tree.AddNode(n);
        HangsLater(nodes, net.nested, n);
      } else {
        ghost var left := Dropped(net.stack, current, n.depth);
        PickLast(nodes, left, stack);
        var top := stack[|stack| - 1];
        ghost var before := top.nested;
        top.AddNode(n);
        HangsUnder(nodes, net.nested, n, left[|left| - 1], before);
      }
    }

    /** The new node is linked and goes onto the stack. */
    method Place(n: Node, ghost net: Net, ghost current: int)
      requires Grown(net) && Picks(nodes, Dropped(net.stack, current, n.depth), stack)
      requires n !in nodes && n.nested == [] && n.html == []
      modifies this`stack, this`nodes, this`es, tree, nodes
      ensures nodes == old(nodes) + [n] && es == old(es) + [Entry(n.item, n.depth, [])]
      ensures Grown(LinkNext(net, current, Entry(n.item, n.depth, [])))
      ensures Picks(nodes, LinkNext(net, current, Entry(n.item, n.depth, [])).stack, stack)
    {
      PickMore(nodes, n, Dropped(net.stack, current, n.depth), stack);
      Link(n, net, current);
      SaysLater(nodes, es, n, Entry(n.item, n.depth, []));
      stack := stack + [n];
      nodes, es := nodes + [n], es + [Entry(n.item, n.depth, [])];
    }

    /** The head of a node: its depth, and what is left of the stack. */
    method EnterDepth(shift: nat, item: Item, sound: bool) returns (level: Level)
      requires currentDepth == Current(es)
      modifies `stack, `currentDepth, `stdShift, `inHtml
      ensures level == HeadLevel(old(Now()), shift, item, sound)
      ensures level.Level? ==> stdShift == level.unit && !inHtml && currentDepth == level.depth
      ensures level.Level? ==> stack == Dropped(old(stack), old(currentDepth), level.depth)
    {
      level := GetDepth(shift);
      if level.NoLevel? {
        return;
      }
      var depth := level.depth;
      if inHtml {
        if depth > currentDepth {
          return NoLevel(DeepAfterHtml);
        }
        inHtml := false;
      }
      var change := currentDepth - depth;
      if change >= 0 {
        Drop(change + 1);
      }
      currentDepth := depth;
      if !sound {
        return NoLevel(BadNode);
      }
      if item.kind == BlockNode && !item.link && currentDepth != 0 {
        return NoLevel(NestedDefinition);
      }
    }

    /** A node line, from one net to the next. */
    method AddHeadLine(shift: nat, item: Item, sound: bool, ghost net: Net) returns (level: Level)
      requires Stands(net)
      modifies this, tree, nodes
      ensures level == HeadLevel(old(Now()), shift, item, sound)
      ensures level.Level? ==> es == old(es) + [Entry(item, level.depth, [])]
      ensures level.Level? ==> Stands(LinkNext(net, Depth(old(es)), Entry(item, level.depth, [])))
      ensures level.Level? ==> stdShift == level.unit && !inHtml && currentLine == old(currentLine)
      ensures forall i :: 0 <= i < |nodes| ==> nodes[i] in old(nodes) || fresh(nodes[i])
    {
      ghost var current := currentDepth;
      level := EnterDepth(shift, item, sound);
      if level.NoLevel? {
        return;
      }
      StackDropped(nodes, net.stack, old(stack), current, level.depth);
      var n := new Node(item, level.depth);
      Place(n, net, current);
    }

    /** A node line, linked like the net of the entries. */
    method ParseHead(shift: nat, item: Item, sound: bool) returns (level: Level)
      requires Hung()
      modifies this, tree, nodes
      ensures level == HeadLevel(old(Now()), shift, item, sound)
      ensures level.Level? ==> Hung() && es == old(es) + [Entry(item, level.depth, [])]
      ensures level.Level? ==> stdShift == level.unit && !inHtml && currentLine == old(currentLine)
      ensures forall i :: 0 <= i < |nodes| ==> nodes[i] in old(nodes) || fresh(nodes[i])
    {
      ghost var net, before := NetOf(es), es;
      level := AddHeadLine(shift, item, sound, net);
      if level.Level? {
        NextNet(before, Entry(item, level.depth, []), net);
      }
    }

    /** What the reader makes of a node line, or its error. */
    method ParseNode(shift: nat, item: Item, sound: bool) returns (level: Level)
      requires Hung()
      modifies this, tree, nodes
      ensures level == HeadLevel(old(Now()), shift, item, sound)
      ensures level.Level? ==> Hung() && es == old(es) + [Entry(item, level.depth, [])]
      ensures level.Level? ==> stdShift == level.unit && !inHtml && currentLine == old(currentLine) + 1
      ensures forall i :: 0 <= i < |nodes| ==> nodes[i] in old(nodes) || fresh(nodes[i])
    {
      level := ParseHead(shift, item, sound);
      NextLine();
    }

    /** A line by its form. */
    method ParseForm(l: Line) returns (ok: bool, error: Error)
      requires Hung()
      modifies this, tree, nodes
      ensures ok ==> Hung() && Step(old(Now()), l) == Ok(Now())
      ensures !ok ==> Step(old(Now()), l) == Err(error)
      ensures forall i :: 0 <= i < |nodes| ==> nodes[i] in old(nodes) || fresh(nodes[i])
    {
      ghost var r := Now();
      ok, error := true, WrongFormat;
      if l.Skip? {
        NextLine();
      } else if l.Wrong? {
        ok := false;
      } else if l.Html? {
        ok := ParseHtml(l.text);
        error := LooseHtml;
        HtmlStep(r, l.text);
      } else {
        var level := ParseNode(l.shift, l.item, l.sound);
        HeadStep(r, l.shift, l.item, l.sound);
        if level.NoLevel? {
          ok, error := false, level.error;
        } else {
          assert Now() == Reader(r.es + [Entry(l.item, level.depth, [])], level.unit, false, r.line + 1);
        }
      }
    }

    /** One line: what the reader makes of it, or its error. */
    method ParseLine(l: Line) returns (ok: bool, error: Error)
      requires Valid()
      modifies this, tree, nodes
      ensures ok ==> Valid() && Step(old(Now()), l) == Ok(Now())
      ensures !ok ==> Step(old(Now()), l) == Err(error)
      ensures forall i :: 0 <= i < |nodes| ==> nodes[i] in old(nodes) || fresh(nodes[i])
    {
      ghost var r := Now();
      ok, error := ParseForm(l);
      if ok { StepAccepts(r, l); }
    }

    /** The stack always holds nodes of consecutive depths, the last of the current one. */
    lemma StackIsConsecutive()
      requires Valid()
      ensures forall k :: 0 <= k < |stack| ==> stack[k].depth == currentDepth - (|stack| - 1 - k)
    {
      LinkedIsStepwise(es);
      StackIsOpen(es);
      OpenIsSpine(es);
      forall k | 0 <= k < |stack| ensures stack[k].depth == currentDepth - (|stack| - 1 - k) {
        assert stack[k] == nodes[Open(es)[k]];
      }
    }
  }

  /** The nodes are the forest of the entries: each with its entry's text, depth and HTML; as children exactly the
      nodes of the entries that the indentation puts under its own; roots and blocks as in the tree. */
  ghost predicate IsForest(nodes: seq<Node>, es: seq<Entry>, tree: NodeTree)
    reads nodes, tree
  {
    && Separate(nodes) && Says(nodes, es)
    && (forall i: nat {:trigger nodes[i].nested} :: i < |nodes| ==> Picks(nodes, Kids(es, i), nodes[i].nested))
    && Picks(nodes, Sift(es, Tops(es), false), tree.roots) && Picks(nodes, Sift(es, Tops(es), true), tree.blocks)
  }

  /** A whole text: the forest of its entries, or the error of its first wrong line. */
  method ParseText(lines: seq<Line>) returns (ok: bool, error: Error, tree: NodeTree, ghost nodes: seq<Node>)
    ensures ok ==> Read(START, lines).Ok? && IsForest(nodes, Read(START, lines).r.es, tree)
    ensures !ok ==> Read(START, lines) == Err(error)
  {
    var p := new Parser();
    ok, error, tree, nodes := true, WrongFormat, p.tree, [];
    assert lines[0..] == lines;
    for i := 0 to |lines|
      invariant p.Valid() && fresh(p) && fresh(p.tree) && fresh(p.nodes) && tree == p.tree
      invariant Read(START, lines) == Read(p.Now(), lines[i..])
    {
      ghost var r := p.Now();
      assert lines[i..][0] == lines[i] && lines[i..][1..] == lines[i + 1..];
      ok, error := p.ParseLine(lines[i]);
      if !ok {
        return;
      }
    }
    nodes := p.nodes;
    AcceptedNet(lines);
  }

  lemma AcceptedNet(lines: seq<Line>)
    requires Read(START, lines).Ok?
    ensures var es := Read(START, lines).r.es; IsForestNet(es, NetOf(es))
  {
    ReadAccepts(START, lines);
    LinkedIsStepwise(Read(START, lines).r.es);
    NetIsForest(Read(START, lines).r.es);
  }
}
