/** Indented lines and forests: a sequence of entries with their depths, the forest it stands for, and back. */
module LxmlForest {
  datatype NodeKind = Widget | Syntax | BlockNode

  /** A node's own line; `link` tells a use of a block from its definition. */
  datatype Item = Item(kind: NodeKind, link: bool, text: string)

  /** A node with its depth and the HTML lines under it. */
  datatype Entry = Entry(item: Item, depth: nat, html: seq<string>)

  datatype Tree = Tree(entry: Entry, kids: seq<Tree>)

  predicate IsDefinition(item: Item) {
    item.kind == BlockNode && !item.link
  }

  // ---------- From entries to forests ----------

  /** The first entry behind i, before hi, that is no deeper than i; hi if all are. */
  function End(es: seq<Entry>, i: nat, hi: nat): (e: nat)
    requires i < hi <= |es|
    ensures i < e <= hi
  {
    EndFrom(es, es[i].depth, i + 1, hi)
  }

  function EndFrom(es: seq<Entry>, d: nat, j: nat, hi: nat): (e: nat)
    requires j <= hi <= |es|
    ensures j <= e <= hi
    ensures (forall k :: j <= k < e ==> es[k].depth > d) && (e < hi ==> es[e].depth <= d)
    decreases hi - j
  {
    if j == hi || es[j].depth <= d then j else EndFrom(es, d, j + 1, hi)
  }

  /** The forest of the entries from lo up to hi. */
  function Forest(es: seq<Entry>, lo: nat, hi: nat): seq<Tree>
    requires lo <= hi <= |es|
    decreases hi - lo
  {
    if lo == hi then []
    else
      var e := End(es, lo, hi);
      [Tree(es[lo], Forest(es, lo + 1, e))] + Forest(es, e, hi)
  }

  // ---------- From forests to entries ----------

  function Preorder(t: Tree): seq<Entry>
    decreases t, 1
  {
    [t.entry] + PreorderAll(t.kids)
  }

  function PreorderAll(ts: seq<Tree>): seq<Entry>
    decreases ts, 0
  {
    if ts == [] then [] else Preorder(ts[0]) + PreorderAll(ts[1..])
  }

  lemma PreorderCons(t: Tree, ts: seq<Tree>)
    ensures PreorderAll([t] + ts) == [t.entry] + PreorderAll(t.kids) + PreorderAll(ts)
  {
  }

  lemma Slices(es: seq<Entry>, lo: nat, e: nat, hi: nat)
    requires lo < e <= hi <= |es|
    ensures es[lo..hi] == [es[lo]] + es[lo + 1..e] + es[e..hi]
  {
  }

  lemma SubSlice(es: seq<Entry>, lo: nat, hi: nat, i: nat, j: nat)
    requires lo <= hi <= |es| && i <= j <= hi - lo
    ensures es[lo..hi][i..j] == es[lo + i..lo + j]
  {
    assert forall k :: 0 <= k < j - i ==> es[lo..hi][i..j][k] == es[lo..hi][i + k] == es[lo + i + k] == es[lo + i..lo + j][k];
  }

  lemma Unsliced(es: seq<Entry>, lo: nat, hi: nat, x: Entry, a: seq<Entry>, b: seq<Entry>)
    requires lo <= hi <= |es| && es[lo..hi] == [x] + a + b
    ensures var e := lo + 1 + |a|; e <= hi && es[lo] == x && es[lo + 1..e] == a && es[e..hi] == b
  {
    var e, all := lo + 1 + |a|, es[lo..hi];
    assert |all| == 1 + |a| + |b|;
    assert es[lo] == all[0];
    assert all[1..1 + |a|] == a && all[1 + |a|..] == b;
    SubSlice(es, lo, hi, 1, 1 + |a|);
    SubSlice(es, lo, hi, 1 + |a|, |all|);
  }

  /** Reading a forest out in preorder gives the entries it was made from. */
  lemma {:induction false} PreorderOfForest(es: seq<Entry>, lo: nat, hi: nat)
    requires lo <= hi <= |es|
    ensures PreorderAll(Forest(es, lo, hi)) == es[lo..hi]
    decreases hi - lo
  {
    if lo < hi {
      var e := End(es, lo, hi);
      PreorderOfForest(es, lo + 1, e);
      PreorderOfForest(es, e, hi);
      var t := Tree(es[lo], Forest(es, lo + 1, e));
      assert Forest(es, lo, hi) == [t] + Forest(es, e, hi);
      PreorderCons(t, Forest(es, e, hi));
      Slices(es, lo, e, hi);
    }
  }

  // ---------- Every child one deeper than its parent ----------

  predicate Well(t: Tree)
    decreases t, 1
  {
    AllWell(t.kids) && forall i :: 0 <= i < |t.kids| ==> t.kids[i].entry.depth == t.entry.depth + 1
  }

  predicate AllWell(ts: seq<Tree>)
    decreases ts, 0
  {
    forall i :: 0 <= i < |ts| ==> Well(ts[i])
  }

  /** No entry is more than one deeper than the one before. */
  predicate Stepwise(es: seq<Entry>) {
    |es| < 2 || (Stepwise(es[..|es| - 1]) && es[|es| - 1].depth <= es[|es| - 2].depth + 1)
  }

  lemma {:induction false} StepAt(es: seq<Entry>, i: nat)
    requires Stepwise(es) && i + 1 < |es|
    ensures es[i + 1].depth <= es[i].depth + 1
    decreases |es|
  {
    if i + 2 < |es| { StepAt(es[..|es| - 1], i); }
  }

  /** No tree starts deeper than the one before. */
  predicate Falling(ts: seq<Tree>) {
    forall i, j :: 0 <= i && j == i + 1 < |ts| ==> ts[j].entry.depth <= ts[i].entry.depth
  }

  predicate Starts(ts: seq<Tree>, d: nat) {
    forall i :: 0 <= i < |ts| ==> ts[i].entry.depth == d
  }

  predicate NoneAbove(es: seq<Entry>, lo: nat, hi: nat, d: nat)
    requires lo <= hi <= |es|
  {
    forall k :: lo <= k < hi ==> es[k].depth >= d
  }

  lemma {:induction false} ForestStarts(es: seq<Entry>, lo: nat, hi: nat, d: nat)
    requires lo <= hi <= |es| && NoneAbove(es, lo, hi, d) && (lo < hi ==> es[lo].depth == d)
    ensures Starts(Forest(es, lo, hi), d)
    decreases hi - lo
  {
    if lo < hi { ForestStarts(es, End(es, lo, hi), hi, d); }
  }

  lemma {:induction false} ForestFalls(es: seq<Entry>, lo: nat, hi: nat)
    requires lo <= hi <= |es|
    ensures Falling(Forest(es, lo, hi)) && (lo < hi ==> Forest(es, lo, hi)[0].entry == es[lo])
    decreases hi - lo
  {
    if lo < hi { ForestFalls(es, End(es, lo, hi), hi); }
  }

  /** Of stepwise entries every child is exactly one deeper than its parent. */
  lemma {:induction false} ForestWell(es: seq<Entry>, lo: nat, hi: nat)
    requires lo <= hi <= |es| && Stepwise(es)
    ensures AllWell(Forest(es, lo, hi))
    decreases hi - lo
  {
    if lo < hi {
      var e := End(es, lo, hi);
      ForestWell(es, lo + 1, e);
      ForestWell(es, e, hi);
      if lo + 1 < e {
        StepAt(es, lo);
      }
      ForestStarts(es, lo + 1, e, es[lo].depth + 1);
    }
  }

  // ---------- A forest is determined by its preorder and depths ----------

  lemma {:induction false} EndFromIs(es: seq<Entry>, d: nat, j: nat, e: nat, hi: nat)
    requires j <= e <= hi <= |es| && (forall k :: j <= k < e ==> es[k].depth > d) && (e < hi ==> es[e].depth <= d)
    ensures EndFrom(es, d, j, hi) == e
    decreases e - j
  {
  }

  /** The first tree ends where its preorder does. */
  lemma FirstEnds(es: seq<Entry>, lo: nat, e: nat, hi: nat, t: Tree, rest: seq<Tree>)
    requires Well(t) && lo < e <= hi <= |es| && es[lo] == t.entry
    requires es[lo + 1..e] == PreorderAll(t.kids) && es[e..hi] == PreorderAll(rest)
    requires rest != [] ==> rest[0].entry.depth <= t.entry.depth
    ensures End(es, lo, hi) == e
  {
  }

  /** Wherever the preorder of a forest stands among entries, the forest can be made from it again. */
  lemma {:induction false} ForestOfPreorder(es: seq<Entry>, lo: nat, hi: nat, ts: seq<Tree>)
    requires AllWell(ts) && Falling(ts) && lo <= hi <= |es| && es[lo..hi] == PreorderAll(ts)
    ensures Forest(es, lo, hi) == ts
    decreases ts
  {
    if ts != [] {
      var t, rest := ts[0], ts[1..];
      var e := lo + 1 + |PreorderAll(t.kids)|;
      assert es[lo..hi] == [t.entry] + PreorderAll(t.kids) + PreorderAll(rest);
      Unsliced(es, lo, hi, t.entry, PreorderAll(t.kids), PreorderAll(rest));
      FirstEnds(es, lo, e, hi, t, rest);
      ForestOfPreorder(es, lo + 1, e, t.kids);
      ForestOfPreorder(es, e, hi, rest);
    }
  }
}
