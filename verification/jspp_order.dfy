/** The order in which compileFileGroup emits the files of one group: by a counter that is bumped along every
    class dependency. */
module FileOrder {
  import opened Common
  import opened Sources

  // ---------- The dependency graph ----------

  /** Edges lead from the file that defines a class to the files whose classes extend it. */
  type Graph = map<Path, seq<Path>>

  ghost predicate WellFormed(g: Graph) {
    forall x :: x in g ==> Distinct(g[x]) && forall y :: y in g[x] ==> y in g
  }

  predicate Edge(g: Graph, x: Path, y: Path) {
    x in g && y in g[x]
  }

  /** A dependency path: not empty, inside the graph, along its edges. */
  predicate IsPath(g: Graph, p: seq<Path>) {
    p != [] && p[0] in g && forall i, j :: 0 <= i < |p| - 1 && j == i + 1 ==> Edge(g, p[i], p[j])
  }

  ghost predicate Acyclic(g: Graph) {
    forall p {:trigger IsPath(g, p)} :: IsPath(g, p) && |p| > 1 ==> p[0] != p[|p| - 1]
  }

  predicate Leads(g: Graph, p: seq<Path>, x: Path, y: Path) {
    IsPath(g, p) && p[0] == x && p[|p| - 1] == y
  }

  ghost function Reach(g: Graph, x: Path): set<Path> {
    set y | y in g.Keys && exists p :: Leads(g, p, x, y)
  }

  lemma Prepend(g: Graph, x: Path, p: seq<Path>)
    requires IsPath(g, p) && Edge(g, x, p[0])
    ensures IsPath(g, [x] + p)
  {
  }

  lemma Tail(g: Graph, p: seq<Path>)
    requires WellFormed(g) && IsPath(g, p) && |p| > 1
    ensures Edge(g, p[0], p[1]) && IsPath(g, p[1..])
  {
  }

  ghost predicate OnCycle(g: Graph, x: Path) {
    exists p :: Leads(g, p, x, x) && |p| > 1
  }

  /** Along an edge from a file that is on no cycle fewer files are in reach. */
  lemma FewerInReach(g: Graph, x: Path, y: Path)
    requires WellFormed(g) && !OnCycle(g, x) && Edge(g, x, y)
    ensures Reach(g, y) < Reach(g, x)
  {
    forall z | z in Reach(g, y) ensures z in Reach(g, x) {
      var p :| Leads(g, p, y, z);
      Prepend(g, x, p);
      assert Leads(g, [x] + p, x, z);
    }
    assert Leads(g, [x], x, x);
    forall p | IsPath(g, p) && p[0] == y ensures p[|p| - 1] != x {
      Prepend(g, x, p);
      var q := [x] + p;
      assert q[|q| - 1] == x ==> Leads(g, q, x, x);
    }
    assert x !in Reach(g, y);
    assert x in Reach(g, x);
  }

  /** ... and in an acyclic graph along every edge: the recursion on edges ends. */
  lemma ReachShrinks(g: Graph, x: Path, y: Path)
    requires WellFormed(g) && Acyclic(g) && Edge(g, x, y)
    ensures Reach(g, y) < Reach(g, x)
  {
    FewerInReach(g, x, y);
  }

  /** What is in reach of a dependent is in reach. */
  lemma ReachBehind(g: Graph, x: Path, y: Path, z: Path)
    requires WellFormed(g) && Edge(g, x, y) && z in Reach(g, y)
    ensures z in Reach(g, x)
  {
    var p :| Leads(g, p, y, z);
    Prepend(g, x, p);
    assert Leads(g, [x] + p, x, z);
  }

  lemma ReachOn(g: Graph, x: Path, y: Path, z: Path)
    requires WellFormed(g) && Edge(g, y, z) && y in Reach(g, x)
    ensures z in Reach(g, x)
  {
    var p :| Leads(g, p, x, y);
    Append(g, p, z);
    assert Leads(g, p + [z], x, z);
  }

  lemma ReachSelf(g: Graph, x: Path)
    requires x in g
    ensures x in Reach(g, x)
  {
    assert Leads(g, [x], x, x);
  }

  // ---------- When the recursion ends ----------

  /** The recursive bumping from x is over after `depth` nested calls. */
  predicate Ends(g: Graph, x: Path, depth: nat)
    decreases depth
  {
    depth > 0 && (x in g ==> forall y :: y in g[x] ==> Ends(g, y, depth - 1))
  }

  lemma {:induction false} EndsLater(g: Graph, x: Path, d: nat, e: nat)
    requires Ends(g, x, d) && d <= e
    ensures Ends(g, x, e)
    decreases d
  {
    if x in g {
      forall y | y in g[x] ensures Ends(g, y, e - 1) {
        EndsLater(g, y, d - 1, e - 1);
      }
    }
  }

  lemma {:induction false} EndsByReach(g: Graph, x: Path)
    requires WellFormed(g) && Acyclic(g) && x in g
    ensures Ends(g, x, |Reach(g, x)| + 1)
    decreases Reach(g, x)
  {
    forall y | y in g[x] ensures Ends(g, y, |Reach(g, x)|) {
      ReachShrinks(g, x, y);
      EndsByReach(g, y);
      Smaller(Reach(g, y), Reach(g, x));
      EndsLater(g, y, |Reach(g, y)| + 1, |Reach(g, x)|);
    }
  }

  lemma Smaller<T>(a: set<T>, b: set<T>)
    requires a < b
    ensures |a| < |b|
  {
    assert b == a + (b - a) && |b| == |a| + |b - a|;
    assert b - a != {};
  }

  lemma {:induction false} EndsAlong(g: Graph, p: seq<Path>, d: nat)
    requires WellFormed(g) && IsPath(g, p) && Ends(g, p[0], d)
    ensures d >= |p| && Ends(g, p[|p| - 1], d - (|p| - 1))
    decreases |p|
  {
    if |p| > 1 {
      Tail(g, p);
      EndsAlong(g, p[1..], d - 1);
    }
  }

  /** On a cycle the recursion never ends. */
  lemma {:induction false} CycleNeverEnds(g: Graph, p: seq<Path>, d: nat)
    requires WellFormed(g) && IsPath(g, p) && |p| > 1 && p[0] == p[|p| - 1]
    ensures !Ends(g, p[0], d)
    decreases d
  {
    if Ends(g, p[0], d) {
      EndsAlong(g, p, d);
      CycleNeverEnds(g, p, d - (|p| - 1));
    }
  }

  /** Bumping x comes back. */
  ghost predicate Finishes(g: Graph, x: Path) {
    exists d :: Ends(g, x, d)
  }

  /** incrementCounter comes back from every file of a group if and only if no class chain leads from a file
      back to itself. */
  lemma CountingEnds(g: Graph)
    requires WellFormed(g)
    ensures Acyclic(g) <==> forall x :: x in g ==> Finishes(g, x)
  {
    if Acyclic(g) {
      forall x | x in g ensures Finishes(g, x) { EndsByReach(g, x); }
    }
    if forall x :: x in g ==> Finishes(g, x) {
      forall p | IsPath(g, p) && |p| > 1 ensures p[0] != p[|p| - 1] {
        assert Finishes(g, p[0]);
        var d :| Ends(g, p[0], d);
        if p[0] == p[|p| - 1] { CycleNeverEnds(g, p, d); }
      }
      assert Acyclic(g);
    }
  }

  // ---------- What the counters count ----------

  /** How often bumping x bumps f. */
  ghost function Bumps(g: Graph, x: Path, f: Path): nat
    requires WellFormed(g) && Acyclic(g) && x in g
    decreases Reach(g, x), 1, 0
  {
    (if x == f then 1 else 0) + BumpsEach(g, x, |g[x]|, f)
  }

  /** ... by the first k dependents of x alone. */
  ghost function BumpsEach(g: Graph, x: Path, k: nat, f: Path): nat
    requires WellFormed(g) && Acyclic(g) && x in g && k <= |g[x]|
    decreases Reach(g, x), 0, k
  {
    if k == 0 then 0
    else
      ReachShrinks(g, x, g[x][k - 1]);
      BumpsEach(g, x, k - 1, f) + Bumps(g, g[x][k - 1], f)
  }

  /** How often bumping every file of `xs` bumps f. */
  ghost function BumpsAll(g: Graph, xs: seq<Path>, f: Path): nat
    requires WellFormed(g) && Acyclic(g) && forall x :: x in xs ==> x in g
  {
    if xs == [] then 0 else BumpsAll(g, xs[..|xs| - 1], f) + Bumps(g, xs[|xs| - 1], f)
  }

  /** The dependency paths from x to f, as a set: x itself, and x before every path from a dependent. */
  ghost function PathsFrom(g: Graph, x: Path, f: Path): set<seq<Path>>
    requires WellFormed(g) && Acyclic(g) && x in g
    decreases Reach(g, x), 1, 0
  {
    (if x == f then {[x]} else {}) + PathsEach(g, x, |g[x]|, f)
  }

  ghost function Prefixed(x: Path, ps: set<seq<Path>>): set<seq<Path>> {
    set p | p in ps :: [x] + p
  }

  lemma PrefixedPaths(g: Graph, x: Path, y: Path, f: Path, ps: set<seq<Path>>)
    requires WellFormed(g) && Edge(g, x, y) && forall p :: p in ps <==> Leads(g, p, y, f)
    ensures forall p {:trigger p in Prefixed(x, ps)} {:trigger Leads(g, p, x, f)} :: p in Prefixed(x, ps) <==> |p| > 1 && p[0] == x && p[1] == y && Leads(g, p, x, f)
  {
    forall p | p in Prefixed(x, ps) ensures |p| > 1 && p[0] == x && p[1] == y && Leads(g, p, x, f) {
      var q :| q in ps && p == [x] + q;
      Prepend(g, x, q);
    }
    forall p | |p| > 1 && p[0] == x && p[1] == y && Leads(g, p, x, f) ensures p in Prefixed(x, ps) {
      Tail(g, p);
      assert p == [x] + p[1..] && Leads(g, p[1..], y, f);
    }
  }

  predicate Through(g: Graph, x: Path, k: nat, f: Path, p: seq<Path>)
    requires x in g && k <= |g[x]|
  {
    |p| > 1 && p[0] == x && Leads(g, p, x, f) && p[1] in g[x][..k]
  }

  ghost function PathsEach(g: Graph, x: Path, k: nat, f: Path): set<seq<Path>>
    requires WellFormed(g) && Acyclic(g) && x in g && k <= |g[x]|
    decreases Reach(g, x), 0, k
  {
    if k == 0 then {}
    else
      ReachShrinks(g, x, g[x][k - 1]);
      PathsEach(g, x, k - 1, f) + Prefixed(x, PathsFrom(g, g[x][k - 1], f))
  }

  lemma {:induction false} PathsFromAre(g: Graph, x: Path, f: Path)
    requires WellFormed(g) && Acyclic(g) && x in g
    ensures forall p {:trigger Leads(g, p, x, f)} :: p in PathsFrom(g, x, f) <==> Leads(g, p, x, f)
    decreases Reach(g, x), 1, 0
  {
    PathsEachAre(g, x, |g[x]|, f);
    forall p | Leads(g, p, x, f) ensures p in PathsFrom(g, x, f) {
      if |p| == 1 {
        assert p == [x];
      } else {
        Tail(g, p);
        assert Through(g, x, |g[x]|, f, p);
      }
    }
    forall p | p in PathsFrom(g, x, f) ensures Leads(g, p, x, f) {
      assert p in PathsEach(g, x, |g[x]|, f) <==> Through(g, x, |g[x]|, f, p);
    }
  }

  lemma {:induction false} PathsEachAre(g: Graph, x: Path, k: nat, f: Path)
    requires WellFormed(g) && Acyclic(g) && x in g && k <= |g[x]|
    ensures forall p {:trigger Through(g, x, k, f, p)} :: p in PathsEach(g, x, k, f) <==> Through(g, x, k, f, p)
    decreases Reach(g, x), 0, k
  {
    if k > 0 {
      var y := g[x][k - 1];
      ReachShrinks(g, x, y);
      PathsEachAre(g, x, k - 1, f);
      PathsFromAre(g, y, f);
      PrefixedPaths(g, x, y, f, PathsFrom(g, y, f));
      assert g[x][..k] == g[x][..k - 1] + [y];
      forall p ensures p in PathsEach(g, x, k, f) <==> Through(g, x, k, f, p) {
        assert p in PathsEach(g, x, k - 1, f) <==> Through(g, x, k - 1, f, p);
        assert p in Prefixed(x, PathsFrom(g, y, f)) <==> |p| > 1 && p[0] == x && p[1] == y && Leads(g, p, x, f);
      }
    }
  }

  lemma {:induction false} ImageSize(ps: set<seq<Path>>, x: Path)
    ensures |Prefixed(x, ps)| == |ps|
    decreases ps
  {
    var image := Prefixed(x, ps);
    if ps == {} {
      assert image == {};
    } else {
      var q :| q in ps;
      var rest := Prefixed(x, ps - {q});
      ImageSize(ps - {q}, x);
      assert [x] + q !in rest by {
        forall p | p in ps - {q} ensures [x] + p != [x] + q {
          assert ([x] + p)[1..] == p && ([x] + q)[1..] == q;
        }
      }
      assert image == rest + {[x] + q};
    }
  }

  ghost predicate Counted(g: Graph, x: Path, f: Path)
    requires WellFormed(g) && Acyclic(g) && x in g
  {
    Bumps(g, x, f) == |PathsFrom(g, x, f)|
  }

  lemma {:induction false} BumpsArePaths(g: Graph, x: Path, f: Path)
    requires WellFormed(g) && Acyclic(g) && x in g
    ensures Counted(g, x, f)
    decreases Reach(g, x)
  {
    forall y | y in g[x] ensures Counted(g, y, f) {
      ReachShrinks(g, x, y);
      BumpsArePaths(g, y, f);
    }
    BumpsEachArePaths(g, x, |g[x]|, f);
    SplitFrom(g, x, f);
    UnionSize(if x == f then {[x]} else {}, PathsEach(g, x, |g[x]|, f));
  }

  lemma UnionSize<T>(a: set<T>, b: set<T>)
    requires a !! b
    ensures |a + b| == |a| + |b|
  {
  }

  lemma SplitFrom(g: Graph, x: Path, f: Path)
    requires WellFormed(g) && Acyclic(g) && x in g
    ensures (if x == f then {[x]} else {}) !! PathsEach(g, x, |g[x]|, f)
  {
    PathsEachAre(g, x, |g[x]|, f);
    assert !Through(g, x, |g[x]|, f, [x]);
  }

  lemma {:induction false} BumpsEachArePaths(g: Graph, x: Path, k: nat, f: Path)
    requires WellFormed(g) && Acyclic(g) && x in g && k <= |g[x]| && forall y :: y in g[x] ==> Counted(g, y, f)
    ensures BumpsEach(g, x, k, f) == |PathsEach(g, x, k, f)|
    decreases k
  {
    if k > 0 {
      BumpsEachArePaths(g, x, k - 1, f);
      EachSize(g, x, k, f);
      assert Counted(g, g[x][k - 1], f);
    }
  }

  lemma EachSize(g: Graph, x: Path, k: nat, f: Path)
    requires WellFormed(g) && Acyclic(g) && x in g && 0 < k <= |g[x]|
    ensures |PathsEach(g, x, k, f)| == |PathsEach(g, x, k - 1, f)| + |PathsFrom(g, g[x][k - 1], f)|
  {
    SplitEach(g, x, k, f);
    ImageSize(PathsFrom(g, g[x][k - 1], f), x);
    UnionSize(PathsEach(g, x, k - 1, f), Prefixed(x, PathsFrom(g, g[x][k - 1], f)));
  }

  lemma SplitEach(g: Graph, x: Path, k: nat, f: Path)
    requires WellFormed(g) && Acyclic(g) && x in g && 0 < k <= |g[x]|
    ensures PathsEach(g, x, k - 1, f) !! Prefixed(x, PathsFrom(g, g[x][k - 1], f))
  {
    var y := g[x][k - 1];
    PathsEachAre(g, x, k - 1, f);
    PathsFromAre(g, y, f);
    PrefixedPaths(g, x, y, f, PathsFrom(g, y, f));
    forall p | p in Prefixed(x, PathsFrom(g, y, f)) ensures p !in PathsEach(g, x, k - 1, f) {
      assert !Through(g, x, k - 1, f, p);
    }
  }

  /** All dependency paths that end at f. */
  ghost function PathsTo(g: Graph, f: Path): (ps: set<seq<Path>>)
    requires WellFormed(g) && Acyclic(g)
    ensures forall p {:trigger p in ps} {:trigger IsPath(g, p)} :: p in ps <==> IsPath(g, p) && p[|p| - 1] == f
  {
    forall x | x in g ensures forall p :: p in PathsFrom(g, x, f) <==> Leads(g, p, x, f) { PathsFromAre(g, x, f); }
    var ps := set x, p | x in g.Keys && p in PathsFrom(g, x, f) :: p;
    assert forall p :: IsPath(g, p) && p[|p| - 1] == f ==> Leads(g, p, p[0], f) && p in PathsFrom(g, p[0], f);
    ps
  }

  predicate StartsIn(p: seq<Path>, xs: seq<Path>) {
    p != [] && p[0] in xs
  }

  lemma {:induction false} BumpsAllArePaths(g: Graph, xs: seq<Path>, f: Path)
    requires WellFormed(g) && Acyclic(g) && Distinct(xs) && forall x :: x in xs ==> x in g
    ensures BumpsAll(g, xs, f) == |set p | p in PathsTo(g, f) && StartsIn(p, xs)|
    decreases |xs|
  {
    var all := set p | p in PathsTo(g, f) && StartsIn(p, xs);
    if xs == [] {
      assert all == {};
    } else {
      var most, x := xs[..|xs| - 1], xs[|xs| - 1];
      BumpsAllArePaths(g, most, f);
      BumpsArePaths(g, x, f);
      var prev := set p | p in PathsTo(g, f) && StartsIn(p, most);
      SplitTo(g, xs, f);
      UnionSize(prev, PathsFrom(g, x, f));
    }
  }

  lemma SplitTo(g: Graph, xs: seq<Path>, f: Path)
    requires WellFormed(g) && Acyclic(g) && Distinct(xs) && xs != [] && xs[|xs| - 1] in g
    ensures var prev := set p | p in PathsTo(g, f) && StartsIn(p, xs[..|xs| - 1]);
      && (set p | p in PathsTo(g, f) && StartsIn(p, xs)) == prev + PathsFrom(g, xs[|xs| - 1], f)
      && prev !! PathsFrom(g, xs[|xs| - 1], f)
  {
    var x := xs[|xs| - 1];
    PathsFromAre(g, x, f);
    forall p ensures p in PathsFrom(g, x, f) <==> p in PathsTo(g, f) && StartsIn(p, [x]) {
      assert p in PathsFrom(g, x, f) <==> Leads(g, p, x, f);
      assert p in PathsTo(g, f) <==> IsPath(g, p) && p[|p| - 1] == f;
    }
  }

  /** Bumping every file once, in any order, leaves each with the number of dependency paths that end at it. */
  lemma CounterIsPathCount(g: Graph, xs: seq<Path>, f: Path)
    requires WellFormed(g) && Acyclic(g) && Distinct(xs) && Elements(xs) == g.Keys
    ensures BumpsAll(g, xs, f) == |PathsTo(g, f)|
  {
    assert forall x :: x in xs ==> x in Elements(xs);
    BumpsAllArePaths(g, xs, f);
    assert forall p :: p in PathsTo(g, f) ==> p[0] in Elements(xs) && StartsIn(p, xs);
    assert (set p | p in PathsTo(g, f) && StartsIn(p, xs)) == PathsTo(g, f);
  }

  lemma {:induction false} ExtendedSize(ps: set<seq<Path>>, y: Path)
    ensures |set p | p in ps :: p + [y]| == |ps|
    decreases ps
  {
    var image := set p | p in ps :: p + [y];
    if ps == {} {
      assert image == {};
    } else {
      var q :| q in ps;
      var rest := set p | p in ps - {q} :: p + [y];
      ExtendedSize(ps - {q}, y);
      assert q + [y] !in rest by {
        forall p | p in ps - {q} ensures p + [y] != q + [y] {
          assert (p + [y])[..|p|] == p && (q + [y])[..|q|] == q;
        }
      }
      assert image == rest + {q + [y]};
    }
  }

  lemma Append(g: Graph, p: seq<Path>, y: Path)
    requires IsPath(g, p) && Edge(g, p[|p| - 1], y)
    ensures IsPath(g, p + [y])
  {
  }

  /** A cycle, from its second file on. */
  lemma Rotate(g: Graph, p: seq<Path>) returns (q: seq<Path>)
    requires WellFormed(g) && IsPath(g, p) && |p| > 1 && p[0] == p[|p| - 1]
    ensures IsPath(g, q) && |q| > 1 && q[0] == q[|q| - 1] == p[1] && Edge(g, p[0], p[1])
  {
    Tail(g, p);
    Append(g, p[1..], p[1]);
    q := p[1..] + [p[1]];
  }

  /** The file of a parent class has a strictly smaller counter than the files that extend it. */
  lemma ParentCountsLess(g: Graph, x: Path, y: Path)
    requires WellFormed(g) && Acyclic(g) && Edge(g, x, y)
    ensures |PathsTo(g, x)| < |PathsTo(g, y)|
  {
    var image := set p | p in PathsTo(g, x) :: p + [y];
    forall p | p in PathsTo(g, x) ensures p + [y] in PathsTo(g, y) {
      Append(g, p, y);
    }
    ExtendedSize(PathsTo(g, x), y);
    assert [y] in PathsTo(g, y);
    assert [y] !in image by {
      forall p | p in PathsTo(g, x) ensures p + [y] != [y] {
        assert |p + [y]| > 1;
      }
    }
    Smaller(image, PathsTo(g, y));
  }

  /** Every file once, no counter above a later one. */
  ghost predicate SortedByCounter(g: Graph, order: seq<Path>)
    requires WellFormed(g) && Acyclic(g)
  {
    && Distinct(order) && Elements(order) == g.Keys
    && forall i, j :: 0 <= i < j < |order| ==> |PathsTo(g, order[i])| <= |PathsTo(g, order[j])|
  }

  /** However the sort breaks its ties, a class is emitted before the classes that extend it. */
  lemma CounterOrderIsTopological(g: Graph, order: seq<Path>)
    requires WellFormed(g) && Acyclic(g) && SortedByCounter(g, order)
    ensures forall x, y :: Edge(g, x, y) ==> exists i, j :: 0 <= i < j < |order| && order[i] == x && order[j] == y
  {
    forall x, y | Edge(g, x, y) ensures exists i, j :: 0 <= i < j < |order| && order[i] == x && order[j] == y {
      ParentCountsLess(g, x, y);
      assert x in Elements(order) && y in Elements(order);
      var i :| 0 <= i < |order| && order[i] == x;
      var j :| 0 <= j < |order| && order[j] == y;
      assert i < j;
    }
  }
}
