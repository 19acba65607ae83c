/** Which entries are children of which, by position, and the chain of entries that are still open at the end. */
module LxmlSpine {
  import opened LxmlForest

  /** The positions of the trees that make up the forest from lo up to hi. */
  function Sibs(es: seq<Entry>, lo: nat, hi: nat): (r: seq<nat>)
    requires lo <= hi <= |es|
    ensures forall k :: 0 <= k < |r| ==> lo <= r[k] < hi
    decreases hi - lo
  {
    if lo == hi then [] else [lo] + Sibs(es, End(es, lo, hi), hi)
  }

  function Kids(es: seq<Entry>, i: nat): (r: seq<nat>)
    requires i < |es|
    ensures forall k :: 0 <= k < |r| ==> i < r[k] < |es|
  {
    Sibs(es, i + 1, End(es, i, |es|))
  }

  function Tops(es: seq<Entry>): (r: seq<nat>)
    ensures forall k :: 0 <= k < |r| ==> r[k] < |es|
  {
    Sibs(es, 0, |es|)
  }

  function TreeAt(es: seq<Entry>, i: nat): Tree
    requires i < |es|
  {
    Tree(es[i], Forest(es, i + 1, End(es, i, |es|)))
  }

  function TreesAt(es: seq<Entry>, at: seq<nat>): (ts: seq<Tree>)
    requires forall k :: 0 <= k < |at| ==> at[k] < |es|
  {
    if at == [] then [] else [TreeAt(es, at[0])] + TreesAt(es, at[1..])
  }

  /** A piece that ends where its entries are closed anyway. */
  predicate Closed(es: seq<Entry>, lo: nat, hi: nat) {
    lo <= hi <= |es| && (hi < |es| ==> forall k :: lo <= k < hi ==> es[hi].depth <= es[k].depth)
  }

  lemma EndInside(es: seq<Entry>, i: nat, lo: nat, hi: nat)
    requires Closed(es, lo, hi) && lo <= i < hi
    ensures End(es, i, |es|) == End(es, i, hi)
  {
  }

  lemma {:induction false} ForestIsSibs(es: seq<Entry>, lo: nat, hi: nat)
    requires Closed(es, lo, hi)
    ensures Forest(es, lo, hi) == TreesAt(es, Sibs(es, lo, hi))
    decreases hi - lo
  {
    if lo < hi {
      EndInside(es, lo, lo, hi);
      var e := End(es, lo, hi);
      ForestIsSibs(es, e, hi);
      SibsCons(es, lo, hi);
      assert Sibs(es, lo, hi)[0] == lo && Sibs(es, lo, hi)[1..] == Sibs(es, e, hi);
    }
  }

  /** The trees of the whole forest are those at the top positions, and the children of each are those at its own
      positions. */
  lemma TreesByPosition(es: seq<Entry>)
    ensures Forest(es, 0, |es|) == TreesAt(es, Tops(es))
    ensures forall i :: 0 <= i < |es| ==> TreeAt(es, i).kids == TreesAt(es, Kids(es, i))
  {
    ForestIsSibs(es, 0, |es|);
    forall i | 0 <= i < |es| ensures TreeAt(es, i).kids == TreesAt(es, Kids(es, i)) {
      ForestIsSibs(es, i + 1, End(es, i, |es|));
    }
  }

  // ---------- One more entry ----------

  lemma EndEarlier(es: seq<Entry>, x: Entry, i: nat, hi: nat)
    requires i < hi <= |es|
    ensures End(es + [x], i, hi) == End(es, i, hi)
  {
    EndFromIs(es + [x], es[i].depth, i + 1, End(es, i, hi), hi);
  }

  /** A closed entry stays as it is; an open one is closed by x unless x is deeper. */
  lemma EndLater(es: seq<Entry>, x: Entry, i: nat)
    requires i < |es|
    ensures End(es + [x], i, |es| + 1)
      == if End(es, i, |es|) < |es| || x.depth <= es[i].depth then End(es, i, |es|) else |es| + 1
  {
    var e := End(es, i, |es|);
    EndFromIs(es + [x], es[i].depth, i + 1, if e < |es| || x.depth <= es[i].depth then e else |es| + 1, |es| + 1);
  }

  lemma {:induction false} SibsEarlier(es: seq<Entry>, x: Entry, lo: nat, hi: nat)
    requires lo <= hi <= |es|
    ensures Sibs(es + [x], lo, hi) == Sibs(es, lo, hi)
    decreases hi - lo
  {
    if lo < hi {
      EndEarlier(es, x, lo, hi);
      SibsEarlier(es, x, End(es, lo, hi), hi);
    }
  }

  /** Whether x would follow as one more tree behind those at the positions s. */
  predicate Follows(es: seq<Entry>, x: Entry, s: seq<nat>)
    requires forall k :: 0 <= k < |s| ==> s[k] < |es|
  {
    s == [] || x.depth <= es[s[|s| - 1]].depth
  }

  lemma SibsCons(es: seq<Entry>, lo: nat, hi: nat)
    requires lo < hi <= |es|
    ensures Sibs(es, lo, hi) == [lo] + Sibs(es, End(es, lo, hi), hi)
  {
  }

  lemma SibAlone(es: seq<Entry>, x: Entry)
    ensures Sibs(es + [x], |es|, |es| + 1) == [|es|]
  {
  }

  lemma FollowsRest(es: seq<Entry>, x: Entry, lo: nat, rest: seq<nat>)
    requires lo < |es| && rest != [] && forall k :: 0 <= k < |rest| ==> rest[k] < |es|
    ensures Follows(es, x, [lo] + rest) == Follows(es, x, rest)
  {
  }

  lemma {:induction false} SibsLater(es: seq<Entry>, x: Entry, lo: nat)
    requires lo <= |es|
    ensures var s := Sibs(es, lo, |es|);
      Sibs(es + [x], lo, |es| + 1) == s + if Follows(es, x, s) then [|es|] else []
    decreases |es| - lo
  {
    if lo == |es| {
      SibAlone(es, x);
    } else {
      EndLater(es, x, lo);
      SibsCons(es, lo, |es|);
      SibsCons(es + [x], lo, |es| + 1);
      var e := End(es, lo, |es|);
      if e < |es| {
        SibsLater(es, x, e);
        SibsCons(es, e, |es|);
        FollowsRest(es, x, lo, Sibs(es, e, |es|));
      } else if x.depth <= es[lo].depth {
        SibAlone(es, x);
      }
    }
  }

  lemma {:induction false} SibDepth(es: seq<Entry>, lo: nat, hi: nat, d: nat)
    requires lo <= hi <= |es| && NoneAbove(es, lo, hi, d) && (lo < hi ==> es[lo].depth == d)
    ensures forall k :: 0 <= k < |Sibs(es, lo, hi)| ==> es[Sibs(es, lo, hi)[k]].depth == d
    decreases hi - lo
  {
    if lo < hi { SibDepth(es, End(es, lo, hi), hi, d); }
  }

  lemma KidDepth(es: seq<Entry>, i: nat)
    requires i < |es| && Stepwise(es)
    ensures forall k :: 0 <= k < |Kids(es, i)| ==> es[Kids(es, i)[k]].depth == es[i].depth + 1
  {
    var e := End(es, i, |es|);
    if i + 1 < e { StepAt(es, i); }
    SibDepth(es, i + 1, e, es[i].depth + 1);
  }

  predicate IsOpen(es: seq<Entry>, i: nat)
    requires i < |es|
  {
    End(es, i, |es|) == |es|
  }

  /** An open entry takes x as another child exactly when x is one deeper. */
  lemma TakesChild(es: seq<Entry>, x: Entry, i: nat)
    requires i < |es| && Stepwise(es) && IsOpen(es, i) && es[i].depth < x.depth <= es[|es| - 1].depth + 1
    ensures Follows(es, x, Kids(es, i)) <==> x.depth == es[i].depth + 1
  {
    KidDepth(es, i);
    var s := Kids(es, i);
    if s == [] { assert i + 1 == |es|; }
  }

  /** A new entry is a child of the open entry that is one less deep, and of no other. */
  lemma KidsLater(es: seq<Entry>, x: Entry, i: nat)
    requires i < |es| && Stepwise(es) && x.depth <= es[|es| - 1].depth + 1
    ensures Kids(es + [x], i) == Kids(es, i) + if IsOpen(es, i) && x.depth == es[i].depth + 1 then [|es|] else []
  {
    EndLater(es, x, i);
    if IsOpen(es, i) && x.depth > es[i].depth {
      KidsOfOpen(es, x, i);
      TakesChild(es, x, i);
    } else {
      KidsOfClosed(es, x, i);
    }
  }

  lemma KidsOfOpen(es: seq<Entry>, x: Entry, i: nat)
    requires i < |es| && End(es, i, |es|) == |es| && End(es + [x], i, |es| + 1) == |es| + 1
    ensures Kids(es + [x], i) == Kids(es, i) + if Follows(es, x, Kids(es, i)) then [|es|] else []
  {
    SibsLater(es, x, i + 1);
  }

  lemma KidsOfClosed(es: seq<Entry>, x: Entry, i: nat)
    requires i < |es| && End(es + [x], i, |es| + 1) == End(es, i, |es|)
    ensures Kids(es + [x], i) == Kids(es, i)
  {
    SibsEarlier(es, x, i + 1, End(es, i, |es|));
  }

  // ---------- The chain of open entries ----------

  predicate Increasing(s: seq<nat>) {
    forall a, b :: 0 <= a < b < |s| ==> s[a] < s[b]
  }

  function Depth(es: seq<Entry>): int {
    if es == [] then 0 else es[|es| - 1].depth
  }

  /** The positions of the open entries: their depths are consecutive and end at the depth of the last entry. */
  predicate Spine(es: seq<Entry>, sp: seq<nat>) {
    && Increasing(sp) && (forall k :: 0 <= k < |sp| ==> sp[k] < |es|)
    && (forall i: nat :: i < |es| ==> (IsOpen(es, i) <==> i in sp))
    && (forall k :: 0 <= k < |sp| ==> es[sp[k]].depth == Depth(es) - (|sp| - 1 - k))
    && (es == [] <==> sp == [])
  }

  /** A stack of nodes when one of depth d comes behind one of depth `current`. */
  function Dropped<T>(stack: seq<T>, current: int, d: int): seq<T> {
    var drop := current - d + 1;
    if drop <= 0 then stack else if drop >= |stack| then [] else stack[..|stack| - drop]
  }

  /** What is left of the spine when an entry of depth d comes. */
  function Kept(es: seq<Entry>, sp: seq<nat>, d: nat): (r: seq<nat>)
    ensures |r| <= |sp| && r == sp[..|r|]
  {
    Dropped(sp, Depth(es), d)
  }

  lemma KeptAre(es: seq<Entry>, sp: seq<nat>, d: nat)
    requires Spine(es, sp) && d <= Depth(es) + 1
    ensures Kept(es, sp, d) <= sp
    ensures forall k :: 0 <= k < |sp| ==> (k < |Kept(es, sp, d)| <==> es[sp[k]].depth < d)
    ensures Kept(es, sp, d) != [] ==> es[Kept(es, sp, d)[|Kept(es, sp, d)| - 1]].depth == d - 1
  {
  }

  /** The new entry takes its place behind the open entries that are less deep than it. */
  lemma SpineLater(es: seq<Entry>, sp: seq<nat>, x: Entry)
    requires Spine(es, sp) && x.depth <= Depth(es) + 1
    ensures Spine(es + [x], Kept(es, sp, x.depth) + [|es|])
  {
    var kept, es' := Kept(es, sp, x.depth), es + [x];
    var sp' := kept + [|es|];
    KeptAre(es, sp, x.depth);
    forall i: nat | i < |es'| ensures IsOpen(es', i) <==> i in sp' {
      if i < |es| {
        EndLater(es, x, i);
        assert IsOpen(es', i) <==> IsOpen(es, i) && es[i].depth < x.depth;
        InKept(es, sp, x.depth, i);
      } else {
        assert sp'[|kept|] == i;
      }
    }
  }

  /** The open entries of a text, one entry after the other. */
  function Open(es: seq<Entry>): (r: seq<nat>)
    ensures forall k :: 0 <= k < |r| ==> r[k] < |es|
  {
    if es == [] then []
    else
      var most, last := es[..|es| - 1], es[|es| - 1];
      Kept(most, Open(most), last.depth) + [|most|]
  }

  /** Depths as lines can have them: the first at most one, no other more than one deeper than the one before. */
  predicate Indented(es: seq<Entry>) {
    Stepwise(es) && (es != [] ==> es[0].depth <= 1)
  }

  /** The stack of a parser: at every point its depths are consecutive and end at the current depth. */
  lemma {:induction false} OpenIsSpine(es: seq<Entry>)
    requires Indented(es)
    ensures Spine(es, Open(es))
    decreases |es|
  {
    if es != [] {
      var most, last := es[..|es| - 1], es[|es| - 1];
      OpenIsSpine(most);
      assert most != [] ==> last.depth <= most[|most| - 1].depth + 1;
      SpineLater(most, Open(most), last);
      assert es == most + [last];
    }
  }

  lemma InKept(es: seq<Entry>, sp: seq<nat>, d: nat, i: nat)
    requires Spine(es, sp) && d <= Depth(es) + 1 && i < |es|
    ensures i in Kept(es, sp, d) <==> i in sp && es[i].depth < d
  {
  }

  lemma {:induction false} LastSibOpen(es: seq<Entry>, lo: nat)
    requires lo < |es|
    ensures Sibs(es, lo, |es|) != [] && IsOpen(es, Sibs(es, lo, |es|)[|Sibs(es, lo, |es|)| - 1])
    ensures forall i: nat :: lo <= i < Sibs(es, lo, |es|)[|Sibs(es, lo, |es|)| - 1] ==> !IsOpen(es, i)
    decreases |es| - lo
  {
    var e := End(es, lo, |es|);
    assert Sibs(es, lo, |es|) == [lo] + Sibs(es, e, |es|);
    if e < |es| {
      LastSibOpen(es, e);
      var rest := Sibs(es, e, |es|);
      assert Sibs(es, lo, |es|)[|rest|] == rest[|rest| - 1];
      forall i: nat | lo <= i < e ensures !IsOpen(es, i) {
        assert es[e].depth <= es[lo].depth <= es[i].depth;
        EndStops(es, i, e);
      }
    }
  }

  lemma EndStops(es: seq<Entry>, i: nat, e: nat)
    requires i < e < |es| && es[e].depth <= es[i].depth
    ensures End(es, i, |es|) <= e
  {
  }

  lemma LastTop(es: seq<Entry>, sp: seq<nat>)
    requires Spine(es, sp) && es != []
    ensures Tops(es) != [] && sp != [] && Tops(es)[|Tops(es)| - 1] == sp[0]
  {
    LastSibOpen(es, 0);
    var last := Tops(es)[|Tops(es)| - 1];
    assert IsOpen(es, last) && last in sp;
    assert sp[0] in sp && IsOpen(es, sp[0]);
  }

  /** A new entry is a top entry exactly when it closes all open ones. */
  lemma TopsLater(es: seq<Entry>, sp: seq<nat>, x: Entry)
    requires Spine(es, sp) && x.depth <= Depth(es) + 1
    ensures Tops(es + [x]) == Tops(es) + if Kept(es, sp, x.depth) == [] then [|es|] else []
  {
    SibsLater(es, x, 0);
    KeptAre(es, sp, x.depth);
    if es != [] { LastTop(es, sp); }
  }

  /** The parent of a new entry: the last open entry that is kept. */
  predicate IsParent(es: seq<Entry>, sp: seq<nat>, d: nat, i: nat) {
    var kept := Kept(es, sp, d); kept != [] && i == kept[|kept| - 1]
  }

  lemma ParentIs(es: seq<Entry>, sp: seq<nat>, x: Entry, i: nat)
    requires Spine(es, sp) && x.depth <= Depth(es) + 1 && i < |es|
    ensures IsParent(es, sp, x.depth, i) <==> IsOpen(es, i) && x.depth == es[i].depth + 1
  {
  }

  /** How the children of all entries change with one more. */
  lemma KidsTable(es: seq<Entry>, sp: seq<nat>, x: Entry)
    requires Spine(es, sp) && Stepwise(es) && x.depth <= Depth(es) + 1
    ensures forall i: nat :: i < |es| ==>
      Kids(es + [x], i) == Kids(es, i) + if IsParent(es, sp, x.depth, i) then [|es|] else []
    ensures Kids(es + [x], |es|) == []
  {
    forall i: nat | i < |es|
      ensures Kids(es + [x], i) == Kids(es, i) + if IsParent(es, sp, x.depth, i) then [|es|] else []
    {
      KidsLater(es, x, i);
      ParentIs(es, sp, x, i);
    }
  }

  // ---------- Definitions apart from the other trees ----------

  /** Of the given positions those of definitions, or those of other nodes. */
  function Sift(es: seq<Entry>, at: seq<nat>, definitions: bool): (r: seq<nat>)
    requires forall k :: 0 <= k < |at| ==> at[k] < |es|
    ensures forall k :: 0 <= k < |r| ==> r[k] < |es|
  {
    if at == [] then []
    else
      var most, last := Sift(es, at[..|at| - 1], definitions), at[|at| - 1];
      if IsDefinition(es[last].item) == definitions then most + [last] else most
  }

  lemma {:induction false} SiftEarlier(es: seq<Entry>, x: Entry, at: seq<nat>, definitions: bool)
    requires forall k :: 0 <= k < |at| ==> at[k] < |es|
    ensures Sift(es + [x], at, definitions) == Sift(es, at, definitions)
    decreases |at|
  {
    if at != [] { SiftEarlier(es, x, at[..|at| - 1], definitions); }
  }

  lemma SiftTops(es: seq<Entry>, sp: seq<nat>, x: Entry, definitions: bool)
    requires Spine(es, sp) && x.depth <= Depth(es) + 1
    ensures Sift(es + [x], Tops(es + [x]), definitions)
      == Sift(es, Tops(es), definitions)
        + if Kept(es, sp, x.depth) == [] && IsDefinition(x.item) == definitions then [|es|] else []
  {
    TopsLater(es, sp, x);
    SiftEarlier(es, x, Tops(es), definitions);
    SiftOne(es + [x], Tops(es), |es|, definitions);
    assert (es + [x])[|es|] == x && Tops(es) + [] == Tops(es);
  }

  lemma SiftOne(es: seq<Entry>, at: seq<nat>, k: nat, definitions: bool)
    requires k < |es| && forall i :: 0 <= i < |at| ==> at[i] < |es|
    ensures Sift(es, at + [k], definitions) == Sift(es, at, definitions) + if IsDefinition(es[k].item) == definitions then [k] else []
  {
  }

  // ---------- The same, as the parser finds it ----------

  /** What has been linked so far, by position: the children of each node, the roots and blocks of the tree, and the
      stack. */
  datatype Net = Net(nested: seq<seq<nat>>, roots: seq<nat>, blocks: seq<nat>, stack: seq<nat>)

  /** The next node is linked under the top of what is left of the stack, or into the tree. */
  function LinkNext(net: Net, current: int, x: Entry): (r: Net)
    ensures |r.nested| == |net.nested| + 1
    ensures r.stack != [] && r.stack[|r.stack| - 1] == |net.nested|
  {
    var left, k := Dropped(net.stack, current, x.depth), |net.nested|;
    if left != [] && left[|left| - 1] < k then
      var top := left[|left| - 1];
      Net(net.nested[top := net.nested[top] + [k]] + [[]], net.roots, net.blocks, left + [k])
    else if IsDefinition(x.item) then Net(net.nested + [[]], net.roots, net.blocks + [k], left + [k])
    else Net(net.nested + [[]], net.roots + [k], net.blocks, left + [k])
  }

  function NetOf(es: seq<Entry>): (net: Net)
    ensures |net.nested| == |es|
    ensures es != [] ==> net.stack != [] && net.stack[|net.stack| - 1] == |es| - 1
  {
    if es == [] then Net([], [], [], [])
    else LinkNext(NetOf(es[..|es| - 1]), Depth(es[..|es| - 1]), es[|es| - 1])
  }

  lemma NetNext(es: seq<Entry>, x: Entry)
    ensures NetOf(es + [x]) == LinkNext(NetOf(es), Depth(es), x)
  {
  }

  /** The net of the entries is their forest: the children of every entry are those that its indentation gives it,
      roots and blocks are the top entries, definitions apart, and the stack holds the open ones. */
  predicate IsForestNet(es: seq<Entry>, net: Net) {
    && |net.nested| == |es| && net.stack == Open(es)
    && net.roots == Sift(es, Tops(es), false) && net.blocks == Sift(es, Tops(es), true)
    && forall i: nat {:trigger net.nested[i]} :: i < |es| ==> net.nested[i] == Kids(es, i)
  }

  lemma LinkedStack(es: seq<Entry>, net: Net, x: Entry)
    requires |net.nested| == |es| && net.stack == Open(es)
    ensures Dropped(net.stack, Depth(es), x.depth) == Kept(es, Open(es), x.depth)
    ensures LinkNext(net, Depth(es), x).stack == Open(es + [x]) && |LinkNext(net, Depth(es), x).nested| == |es| + 1
  {
  }

  lemma KidsOne(es: seq<Entry>, x: Entry, i: nat)
    requires Indented(es) && x.depth <= Depth(es) + 1 && i <= |es|
    ensures Kids(es + [x], i)
      == if i == |es| then []
         else Kids(es, i) + if IsParent(es, Open(es), x.depth, i) then [|es|] else []
  {
    OpenIsSpine(es);
    KidsTable(es, Open(es), x);
  }

  lemma TopsOne(es: seq<Entry>, x: Entry, definitions: bool)
    requires Indented(es) && x.depth <= Depth(es) + 1
    ensures Sift(es + [x], Tops(es + [x]), definitions)
      == Sift(es, Tops(es), definitions)
        + if Kept(es, Open(es), x.depth) == [] && IsDefinition(x.item) == definitions then [|es|] else []
  {
    OpenIsSpine(es);
    SiftTops(es, Open(es), x, definitions);
  }

  /** The children of one node once the next is linked. */
  lemma LinkedNested(net: Net, current: int, x: Entry, i: nat)
    requires i <= |net.nested|
    ensures var left, nested := Dropped(net.stack, current, x.depth), LinkNext(net, current, x).nested;
      && |nested| == |net.nested| + 1
      && nested[i] == if i == |net.nested| then []
         else net.nested[i] + if left != [] && left[|left| - 1] == i then [|net.nested|] else []
  {
  }

  lemma LinkedRoots(net: Net, current: int, x: Entry)
    requires var left := Dropped(net.stack, current, x.depth); left != [] ==> left[|left| - 1] < |net.nested|
    ensures var left, k, to := Dropped(net.stack, current, x.depth), |net.nested|, LinkNext(net, current, x);
      && to.roots == net.roots + (if left == [] && !IsDefinition(x.item) then [k] else [])
      && to.blocks == net.blocks + (if left == [] && IsDefinition(x.item) then [k] else [])
  {
  }

  lemma LinkedChildren(es: seq<Entry>, net: Net, x: Entry, i: nat)
    requires |net.nested| == |es| && net.stack == Open(es) && (i < |es| ==> net.nested[i] == Kids(es, i))
    requires Indented(es) && x.depth <= Depth(es) + 1 && i <= |es|
    ensures |LinkNext(net, Depth(es), x).nested| == |es| + 1 && LinkNext(net, Depth(es), x).nested[i] == Kids(es + [x], i)
  {
    var left := Dropped(net.stack, Depth(es), x.depth);
    var p := left != [] && left[|left| - 1] == i;
    LinkedNested(net, Depth(es), x, i);
    KidsIf(es, x, i, p);
  }

  lemma KidsIf(es: seq<Entry>, x: Entry, i: nat, parent: bool)
    requires Indented(es) && x.depth <= Depth(es) + 1 && i <= |es| && parent == IsParent(es, Open(es), x.depth, i)
    ensures Kids(es + [x], i) == if i == |es| then [] else Kids(es, i) + if parent then [|es|] else []
  {
    KidsOne(es, x, i);
  }

  lemma LinkedTops(es: seq<Entry>, net: Net, x: Entry)
    requires |net.nested| == |es| && net.stack == Open(es) && Indented(es) && x.depth <= Depth(es) + 1
    requires net.roots == Sift(es, Tops(es), false) && net.blocks == Sift(es, Tops(es), true)
    ensures LinkNext(net, Depth(es), x).roots == Sift(es + [x], Tops(es + [x]), false)
    ensures LinkNext(net, Depth(es), x).blocks == Sift(es + [x], Tops(es + [x]), true)
  {
    TopsOne(es, x, true);
    TopsOne(es, x, false);
    LinkedRoots(net, Depth(es), x);
  }

  lemma ForestNetNext(es: seq<Entry>, net: Net, x: Entry)
    requires IsForestNet(es, net) && Indented(es) && x.depth <= Depth(es) + 1
    ensures IsForestNet(es + [x], LinkNext(net, Depth(es), x))
  {
    LinkedStack(es, net, x);
    LinkedTops(es, net, x);
    var to := LinkNext(net, Depth(es), x);
    forall i: nat {:trigger to.nested[i]} | i < |es| + 1 ensures to.nested[i] == Kids(es + [x], i) {
      LinkedChildren(es, net, x, i);
    }
  }

  lemma {:induction false} NetIsForest(es: seq<Entry>)
    requires Indented(es)
    ensures IsForestNet(es, NetOf(es))
    decreases |es|
  {
    if es != [] {
      var most, x := es[..|es| - 1], es[|es| - 1];
      assert es == most + [x];
      IndentedEarlier(most, x);
      NetIsForest(most);
      NetNext(most, x);
      ForestNetNext(most, NetOf(most), x);
    }
  }

  lemma StackIsOpen(es: seq<Entry>)
    requires Indented(es)
    ensures NetOf(es).stack == Open(es)
  {
    NetIsForest(es);
  }

  lemma IndentedEarlier(es: seq<Entry>, x: Entry)
    requires Indented(es + [x])
    ensures Indented(es) && x.depth <= Depth(es) + 1
  {
  }

  // ---------- Entries that differ in their HTML only ----------

  predicate SameShape(es: seq<Entry>, fs: seq<Entry>) {
    |es| == |fs| && forall i :: 0 <= i < |es| ==> es[i].depth == fs[i].depth && es[i].item == fs[i].item
  }

  lemma {:induction false} SameNet(es: seq<Entry>, fs: seq<Entry>)
    requires SameShape(es, fs)
    ensures NetOf(es) == NetOf(fs)
    decreases |es|
  {
    if es != [] {
      var n := |es| - 1;
      SameNet(es[..n], fs[..n]);
      SameLink(NetOf(es[..n]), Depth(es[..n]), es[n], fs[n]);
      assert Depth(es[..n]) == Depth(fs[..n]);
    }
  }

  lemma SameLink(net: Net, current: int, x: Entry, y: Entry)
    requires x.depth == y.depth && x.item == y.item
    ensures LinkNext(net, current, x) == LinkNext(net, current, y)
  {
  }
}
