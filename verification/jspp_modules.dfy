/** Which modules an import brings in: the depth-first search of checkModule over the module map. */
module ModuleScan {
  import opened Common
  import opened Sources

  /** The injector is asked once; what it answers is not looked up again. */
  function Resolved(w: World, n: Name): Name {
    if n in w.injector then w.injector[n] else n
  }

  /** A module the search stops at for no reason of its own: not ignored, not compiled yet, known, its file there.
      Without a preprocessor there is no such module. */
  predicate Open(w: World, compiled: seq<Name>, m: Name) {
    w.bound && m !in w.ignored && m !in compiled && m in w.modules && w.modules[m] in w.present
  }

  /** The names imported by the text of a module's file. */
  function Imported(w: World, path: Path): seq<Name> {
    if path in w.files then w.files[path].raw else []
  }

  /** A chain of open modules, each imported by the file of the one before. */
  predicate Chain(w: World, compiled: seq<Name>, c: seq<Name>) {
    && c != []
    && (forall i :: 0 <= i < |c| ==> Open(w, compiled, c[i]))
    && (forall i, j :: 0 <= i < |c| - 1 && j == i + 1 ==> Follows(w, c[i], c[j]))
  }

  predicate Follows(w: World, a: Name, b: Name) {
    a in w.modules && exists n :: n in Imported(w, w.modules[a]) && b == Resolved(w, n)
  }

  predicate FromNames(w: World, names: seq<Name>, m: Name) {
    exists n :: n in names && m == Resolved(w, n)
  }

  /** A module that the requested names lead to. */
  ghost predicate Wanted(w: World, compiled: seq<Name>, names: seq<Name>, m: Name) {
    m in w.modules && exists c :: Chain(w, compiled, c) && FromNames(w, names, c[0]) && c[|c| - 1] == m
  }

  /** The search's own state: what it has listed so far. */
  class Scan {
    var modules: seq<Name>
    var paths: seq<Path>

    constructor ()
      ensures modules == [] && paths == []
    {
      modules, paths := [], [];
    }
  }

  /** Every listed module stands beside the path of its file, and no path is listed twice. */
  predicate Listed(w: World, compiled: seq<Name>, modules: seq<Name>, paths: seq<Path>) {
    && |modules| == |paths| && Distinct(paths)
    && forall i :: 0 <= i < |modules| ==> Open(w, compiled, modules[i]) && paths[i] == w.modules[modules[i]]
  }

  /** A name needs no more visiting once the path of its module is listed. */
  predicate Settled(w: World, compiled: seq<Name>, paths: seq<Path>, n: Name) {
    Open(w, compiled, Resolved(w, n)) ==> w.modules[Resolved(w, n)] in paths
  }

  predicate AllSettled(w: World, compiled: seq<Name>, paths: seq<Path>, names: seq<Name>) {
    forall n :: n in names ==> Settled(w, compiled, paths, n)
  }

  /** The imports of the files listed since `k` are all settled. */
  predicate ClosedFrom(w: World, compiled: seq<Name>, paths: seq<Path>, k: nat) {
    forall i :: k <= i < |paths| ==> AllSettled(w, compiled, paths, Imported(w, paths[i]))
  }

  predicate Extended<T(==)>(a: seq<T>, b: seq<T>) {
    |a| <= |b| && b[..|a|] == a
  }

  ghost predicate WantedFrom(w: World, compiled: seq<Name>, names: seq<Name>, modules: seq<Name>, k: nat) {
    forall i :: k <= i < |modules| ==> Wanted(w, compiled, names, modules[i])
  }

  /** What one visit adds: settled, closed, and no more than what the names ask for. */
  ghost predicate Visited(w: World, compiled: seq<Name>, names: seq<Name>, m0: seq<Name>, p0: seq<Path>, m1: seq<Name>, p1: seq<Path>) {
    && Listed(w, compiled, m1, p1) && Extended(m0, m1) && Extended(p0, p1)
    && ClosedFrom(w, compiled, p1, |p0|)
    && WantedFrom(w, compiled, names, m1, |m0|)
    && AllSettled(w, compiled, p1, names)
  }

  lemma WantedMore(w: World, compiled: seq<Name>, few: seq<Name>, many: seq<Name>, m: Name)
    requires Wanted(w, compiled, few, m) && forall n :: n in few ==> n in many
    ensures Wanted(w, compiled, many, m)
  {
  }

  /** Two visits in a row are one visit for the names of both. */
  lemma VisitBoth(w: World, compiled: seq<Name>, a: seq<Name>, b: seq<Name>,
                  m0: seq<Name>, p0: seq<Path>, m1: seq<Name>, p1: seq<Path>, m2: seq<Name>, p2: seq<Path>)
    requires Visited(w, compiled, a, m0, p0, m1, p1) && Visited(w, compiled, b, m1, p1, m2, p2)
    ensures Visited(w, compiled, a + b, m0, p0, m2, p2)
  {
    assert forall x :: x in p1 ==> x in p2 by {
      assert forall i :: 0 <= i < |p1| ==> p2[i] == p1[i];
    }
    forall i | |p0| <= i < |p2| ensures AllSettled(w, compiled, p2, Imported(w, p2[i])) {
      if i < |p1| { assert p2[i] == p1[i]; }
    }
    forall i | |m0| <= i < |m2| ensures Wanted(w, compiled, a + b, m2[i]) {
      if i < |m1| {
        assert m2[i] == m1[i];
        WantedMore(w, compiled, a, a + b, m1[i]);
      } else {
        WantedMore(w, compiled, b, a + b, m2[i]);
      }
    }
  }

  lemma WantedBehind(w: World, compiled: seq<Name>, n: Name, m: Name)
    requires Open(w, compiled, Resolved(w, n)) && Wanted(w, compiled, Imported(w, w.modules[Resolved(w, n)]), m)
    ensures Wanted(w, compiled, [n], m)
  {
    var first := Resolved(w, n);
    var c :| Chain(w, compiled, c) && FromNames(w, Imported(w, w.modules[first]), c[0]) && c[|c| - 1] == m;
    var d := [first] + c;
    forall i, j | 0 <= i < |d| - 1 && j == i + 1 ensures Follows(w, d[i], d[j]) {
      if i > 0 { assert Follows(w, c[i - 1], c[i]); }
    }
    assert FromNames(w, [n], d[0]) && Chain(w, compiled, d);
  }

  /** Listing a module and then visiting its imports is visiting the module. */
  lemma VisitModule(w: World, compiled: seq<Name>, n: Name, m0: seq<Name>, p0: seq<Path>, m2: seq<Name>, p2: seq<Path>)
    requires Listed(w, compiled, m0, p0) && Open(w, compiled, Resolved(w, n))
    requires w.modules[Resolved(w, n)] !in p0
    requires Visited(w, compiled, Imported(w, w.modules[Resolved(w, n)]), m0 + [Resolved(w, n)], p0 + [w.modules[Resolved(w, n)]], m2, p2)
    ensures Visited(w, compiled, [n], m0, p0, m2, p2)
  {
    var m, p := Resolved(w, n), w.modules[Resolved(w, n)];
    ModuleAsked(w, compiled, n, m0 + [m], m2);
    assert m2[|m0|] == (m0 + [m])[|m0|] == m;
    FirstOfMore(p0, p, p2);
    FirstOfMore(m0, m, m2);
    assert AllSettled(w, compiled, p2, Imported(w, p2[|p0|]));
  }

  lemma FirstOfMore<T>(few: seq<T>, x: T, many: seq<T>)
    requires Extended(few + [x], many)
    ensures Extended(few, many) && many[|few|] == x
  {
  }

  lemma ModuleAsked(w: World, compiled: seq<Name>, n: Name, m1: seq<Name>, m2: seq<Name>)
    requires m1 != [] && m1[|m1| - 1] == Resolved(w, n) && Extended(m1, m2) && Open(w, compiled, Resolved(w, n))
    requires WantedFrom(w, compiled, Imported(w, w.modules[Resolved(w, n)]), m2, |m1|)
    ensures WantedFrom(w, compiled, [n], m2, |m1| - 1)
  {
    var m := Resolved(w, n);
    assert Wanted(w, compiled, [n], m) by {
      assert Chain(w, compiled, [m]) && FromNames(w, [n], m);
    }
    forall i | |m1| - 1 <= i < |m2| ensures Wanted(w, compiled, [n], m2[i]) {
      if i >= |m1| {
        WantedBehind(w, compiled, n, m2[i]);
      } else {
        assert m2[i] == m1[i];
      }
    }
  }

  ghost function Unlisted(w: World, paths: seq<Path>): set<Path> {
    w.modules.Values - Elements(paths)
  }

  lemma LessUnlisted(w: World, p0: seq<Path>, p1: seq<Path>)
    requires Extended(p0, p1)
    ensures Unlisted(w, p1) <= Unlisted(w, p0)
  {
  }

  /** checkModule. */
  method CheckModule(w: World, compiled: seq<Name>, n: Name, scan: Scan)
    requires Listed(w, compiled, scan.modules, scan.paths)
    modifies scan
    ensures Visited(w, compiled, [n], old(scan.modules), old(scan.paths), scan.modules, scan.paths)
    decreases Unlisted(w, scan.paths), 0
  {
    if !w.bound {
      return;
    }
    var m := Resolved(w, n);
    if m in w.ignored || m in compiled || m in scan.modules {
      return;
    }
    if m !in w.modules || w.modules[m] !in w.present {
      return;
    }
    var path := w.modules[m];
    if path in scan.paths {
      return;
    }
    ghost var m0, p0 := scan.modules, scan.paths;
    assert path in w.modules.Values && path in Elements(p0 + [path]);
    LessUnlisted(w, p0, p0 + [path]);
    scan.paths := scan.paths + [path];
    scan.modules := scan.modules + [m];
    CheckModuleDependencies(w, compiled, path, scan);
    VisitModule(w, compiled, n, m0, p0, scan.modules, scan.paths);
  }

  /** checkModuleDependencies: an unreadable file is passed over. */
  method CheckModuleDependencies(w: World, compiled: seq<Name>, path: Path, scan: Scan)
    requires Listed(w, compiled, scan.modules, scan.paths)
    modifies scan
    ensures Visited(w, compiled, Imported(w, path), old(scan.modules), old(scan.paths), scan.modules, scan.paths)
    decreases Unlisted(w, scan.paths), 2
  {
    if path in w.files {
      CheckModules(w, compiled, w.files[path].raw, scan);
    }
  }

  /** The names of an import, or of all the imports of a file, in turn. */
  method CheckModules(w: World, compiled: seq<Name>, names: seq<Name>, scan: Scan)
    requires Listed(w, compiled, scan.modules, scan.paths)
    modifies scan
    ensures Visited(w, compiled, names, old(scan.modules), old(scan.paths), scan.modules, scan.paths)
    decreases Unlisted(w, scan.paths), 1
  {
    ghost var m0, p0 := scan.modules, scan.paths;
    for i := 0 to |names|
      invariant Visited(w, compiled, names[..i], m0, p0, scan.modules, scan.paths)
    {
      ghost var m1, p1 := scan.modules, scan.paths;
      LessUnlisted(w, p0, p1);
      CheckModule(w, compiled, names[i], scan);
      VisitBoth(w, compiled, names[..i], [names[i]], m0, p0, m1, p1, scan.modules, scan.paths);
      assert names[..i + 1] == names[..i] + [names[i]];
    }
    assert names[..|names|] == names;
  }

  // ---------- What a whole search returns ----------

  lemma ChainMost(w: World, compiled: seq<Name>, c: seq<Name>)
    requires Chain(w, compiled, c) && |c| > 1
    ensures Chain(w, compiled, c[..|c| - 1]) && Follows(w, c[|c| - 2], c[|c| - 1])
  {
    var most := c[..|c| - 1];
    assert forall i :: 0 <= i < |most| ==> most[i] == c[i];
  }

  lemma FollowedListed(w: World, compiled: seq<Name>, paths: seq<Path>, a: Name, b: Name)
    requires ClosedFrom(w, compiled, paths, 0) && a in w.modules && w.modules[a] in paths
    requires Follows(w, a, b) && Open(w, compiled, b)
    ensures w.modules[b] in paths
  {
    var k :| 0 <= k < |paths| && paths[k] == w.modules[a];
    var n :| n in Imported(w, paths[k]) && b == Resolved(w, n);
    assert Settled(w, compiled, paths, n);
  }

  lemma {:induction false} ChainListed(w: World, compiled: seq<Name>, names: seq<Name>, paths: seq<Path>, c: seq<Name>)
    requires AllSettled(w, compiled, paths, names) && ClosedFrom(w, compiled, paths, 0)
    requires Chain(w, compiled, c) && FromNames(w, names, c[0])
    ensures w.modules[c[|c| - 1]] in paths
    decreases |c|
  {
    if |c| == 1 {
      var n :| n in names && c[0] == Resolved(w, n);
      assert Settled(w, compiled, paths, n);
    } else {
      ChainMost(w, compiled, c);
      ChainListed(w, compiled, names, paths, c[..|c| - 1]);
      FollowedListed(w, compiled, paths, c[|c| - 2], c[|c| - 1]);
    }
  }

  ghost predicate PathsApart(w: World, compiled: seq<Name>, names: seq<Name>) {
    forall a, b :: Wanted(w, compiled, names, a) && Wanted(w, compiled, names, b) && w.modules[a] == w.modules[b] ==> a == b
  }

  lemma WantedListed(w: World, compiled: seq<Name>, names: seq<Name>, modules: seq<Name>, paths: seq<Path>, m: Name)
    requires Visited(w, compiled, names, [], [], modules, paths) && Wanted(w, compiled, names, m)
    ensures m in w.modules && w.modules[m] in paths
  {
    var c :| Chain(w, compiled, c) && FromNames(w, names, c[0]) && c[|c| - 1] == m;
    ChainListed(w, compiled, names, paths, c);
  }

  /** The listed files are exactly those of the modules that the names lead to, each once. */
  lemma PathsAreExact(w: World, compiled: seq<Name>, names: seq<Name>, modules: seq<Name>, paths: seq<Path>)
    requires Visited(w, compiled, names, [], [], modules, paths)
    ensures Distinct(paths)
    ensures forall p :: p in paths <==> exists m :: Wanted(w, compiled, names, m) && w.modules[m] == p
  {
    forall m | Wanted(w, compiled, names, m) ensures w.modules[m] in paths {
      WantedListed(w, compiled, names, modules, paths, m);
    }
    forall p | p in paths ensures exists m :: Wanted(w, compiled, names, m) && w.modules[m] == p {
      var i :| 0 <= i < |paths| && paths[i] == p;
      assert Wanted(w, compiled, names, modules[i]);
    }
  }

  ghost predicate AllListed(w: World, compiled: seq<Name>, names: seq<Name>, modules: seq<Name>) {
    forall m :: Wanted(w, compiled, names, m) ==> m in modules
  }

  lemma ListedApart(w: World, compiled: seq<Name>, modules: seq<Name>, paths: seq<Path>, a: Name, b: Name)
    requires Listed(w, compiled, modules, paths) && a in modules && b in modules && w.modules[a] == w.modules[b]
    ensures a == b
  {
  }

  lemma ApartListed(w: World, compiled: seq<Name>, names: seq<Name>, modules: seq<Name>, paths: seq<Path>, m: Name)
    requires Visited(w, compiled, names, [], [], modules, paths)
    requires PathsApart(w, compiled, names) && Wanted(w, compiled, names, m)
    ensures m in modules
  {
    WantedListed(w, compiled, names, modules, paths, m);
    var i :| 0 <= i < |paths| && paths[i] == w.modules[m];
    assert Wanted(w, compiled, names, modules[i]);
  }

  /** The listed modules are modules that the names lead to, each once - and all of those if and only if no two
      of them share a file. */
  lemma ModulesAreExact(w: World, compiled: seq<Name>, names: seq<Name>, modules: seq<Name>, paths: seq<Path>)
    requires Visited(w, compiled, names, [], [], modules, paths)
    ensures Distinct(modules) && forall m :: m in modules ==> Wanted(w, compiled, names, m)
    ensures AllListed(w, compiled, names, modules) <==> PathsApart(w, compiled, names)
  {
    if AllListed(w, compiled, names, modules) {
      forall a, b | Wanted(w, compiled, names, a) && Wanted(w, compiled, names, b) && w.modules[a] == w.modules[b] ensures a == b {
        ListedApart(w, compiled, modules, paths, a, b);
      }
    }
    if PathsApart(w, compiled, names) {
      forall m | Wanted(w, compiled, names, m) ensures m in modules {
        ApartListed(w, compiled, names, modules, paths, m);
      }
    }
  }

  // ---------- Which modules are taken ----------

  /** The module m stands for the name n: the injector may have put another in its place. */
  predicate StandsFor(w: World, n: Name, m: Name) {
    if n in w.injector then m == w.injector[n] else m == n
  }

  /** What lets a module be taken. */
  predicate Usable(w: World, compiled: seq<Name>, m: Name) {
    m in w.modules && w.modules[m] in w.present && m !in compiled && m !in w.ignored && w.bound
  }

  /** A search lists available modules only. The file of each that a requested name stands for is among them, and so is the
      file of each that a name in the text of a listed file stands for. */
  lemma SearchTakes(w: World, compiled: seq<Name>, names: seq<Name>, modules: seq<Name>, paths: seq<Path>)
    requires Visited(w, compiled, names, [], [], modules, paths)
    ensures forall m :: m in modules ==> Usable(w, compiled, m) && w.modules[m] in paths
    ensures forall n, m :: n in names && StandsFor(w, n, m) && Usable(w, compiled, m) ==> w.modules[m] in paths
    ensures forall p, n, m :: p in paths && p in w.files && n in w.files[p].raw && StandsFor(w, n, m) && Usable(w, compiled, m) ==>
      w.modules[m] in paths
  {
    forall n, m | n in names && StandsFor(w, n, m) && Usable(w, compiled, m) ensures w.modules[m] in paths {
      assert Settled(w, compiled, paths, n);
    }
    forall p, n, m | p in paths && p in w.files && n in w.files[p].raw && StandsFor(w, n, m) && Usable(w, compiled, m) ensures w.modules[m] in paths {
      var i :| 0 <= i < |paths| && paths[i] == p;
      assert Settled(w, compiled, paths, n);
    }
  }

  /** A name in the text of a listed file stands for the module. */
  predicate AskedWithin(w: World, paths: seq<Path>, m: Name) {
    exists p, n :: p in paths && p in w.files && n in w.files[p].raw && StandsFor(w, n, m)
  }

  lemma FollowedAsks(w: World, paths: seq<Path>, a: Name, m: Name)
    requires Follows(w, a, m) && w.modules[a] in paths
    ensures AskedWithin(w, paths, m)
  {
    var n :| n in Imported(w, w.modules[a]) && m == Resolved(w, n);
    assert w.modules[a] in w.files && n in w.files[w.modules[a]].raw && StandsFor(w, n, m);
  }

  lemma ChainAsks(w: World, compiled: seq<Name>, names: seq<Name>, paths: seq<Path>, c: seq<Name>)
    requires AllSettled(w, compiled, paths, names) && ClosedFrom(w, compiled, paths, 0)
    requires Chain(w, compiled, c) && FromNames(w, names, c[0]) && |c| > 1
    ensures AskedWithin(w, paths, c[|c| - 1])
  {
    ChainMost(w, compiled, c);
    ChainListed(w, compiled, names, paths, c[..|c| - 1]);
    FollowedAsks(w, paths, c[|c| - 2], c[|c| - 1]);
  }

  /** Every listed module is one that a requested name stands for, or one that a name in the text of a listed file does. */
  lemma SearchAsked(w: World, compiled: seq<Name>, names: seq<Name>, modules: seq<Name>, paths: seq<Path>, m: Name)
    requires Visited(w, compiled, names, [], [], modules, paths) && m in modules
    ensures (exists n :: n in names && StandsFor(w, n, m)) || AskedWithin(w, paths, m)
  {
    var i :| 0 <= i < |modules| && modules[i] == m;
    assert Wanted(w, compiled, names, modules[i]);
    var c :| Chain(w, compiled, c) && FromNames(w, names, c[0]) && c[|c| - 1] == m;
    if |c| > 1 {
      ChainAsks(w, compiled, names, paths, c);
    } else {
      var n :| n in names && c[0] == Resolved(w, n);
      assert StandsFor(w, n, m);
    }
  }
}
