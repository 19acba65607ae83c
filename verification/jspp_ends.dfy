/** When compiling a file comes back at all, told from what the file leads to. */
module LinkEnds {
  import opened Common
  import opened Sources
  import opened FileOrder
  import opened FileGroup
  import opened ModuleScan
  import opened Emission
  import opened LinkTexts
  import opened LinkSteps
  import opened LinkRuns

  ghost predicate ComesBack(w: World, build: bool, x: Path, s: Noted) {
    exists t, ok :: FileRuns(w, build, x, s, t, ok)
  }

  /** Whatever is noted already. */
  lemma BuildableEnds(w: World, build: bool, x: Path, s: Noted)
    requires Buildable(w, build, x)
    ensures ComesBack(w, build, x, s)
  {
    var t, ok := ImportGoes(w, build, x, s.(files := s.files + [x]));
    assert FileRuns(w, build, x, s, t, ok);
  }

  lemma LoopNeverEnds(w: World, build: bool, x: Path, s: Noted)
    requires Lossless(w, build) && ValidWorld(w) && Looped(w, x)
    ensures !ComesBack(w, build, x, s)
  {
    if ComesBack(w, build, x, s) {
      var t, ok :| FileRuns(w, build, x, s, t, ok);
      FileStuck(w, build, x, s, t, ok);
    }
  }

  // ---------- What came back came back from everything it leads to ----------

  /** The files of every group that is not given up are noted, and the group could be put in order. */
  ghost predicate ArgsDone(w: World, args: seq<PathArg>, files: seq<Path>) {
    forall arg :: arg in args && arg.files.Some? ==> GroupDone(w, arg.files.value, files)
  }

  ghost predicate GroupDone(w: World, names: seq<Path>, files: seq<Path>) {
    GroupFits(w, names) && (AllSound(w, names) ==> forall y :: y in names && y in w.files ==> y in files)
  }

  ghost predicate CallsDone(w: World, calls: seq<ImportCall>, files: seq<Path>) {
    forall call :: call in calls ==> ArgsDone(w, call.paths, files)
  }

  ghost predicate ModulesDone(w: World, build: bool, names: seq<Name>, files: seq<Path>) {
    build ==> forall m :: Wanted(w, [], names, m) && w.modules[m] in w.files ==> w.modules[m] in files
  }

  ghost predicate FileDone(w: World, build: bool, x: Path, files: seq<Path>) {
    && x in w.files && !Looped(w, x)
    && ModulesDone(w, build, ModuleNames(w.files[x].calls), files) && CallsDone(w, w.files[x].calls, files)
  }

  /** What a noted module leads to is noted. */
  ghost predicate Deep(w: World, build: bool, s: Noted) {
    build ==> forall c {:trigger Chain(w, [], c)} ::
      Chain(w, [], c) && c[0] in s.modules && w.modules[c[|c| - 1]] in w.files ==> w.modules[c[|c| - 1]] in s.files
  }

  /** From s to t: everything newly noted is in the region r, done, and all that it brings in is noted. */
  ghost predicate Grown(w: World, build: bool, r: set<Path>, s: Noted, t: Noted) {
    && Deep(w, build, t)
    && (forall y :: y in s.files ==> y in t.files) && (forall m :: m in s.modules ==> m in t.modules)
    && forall y :: y in t.files && y !in s.files ==> y in r && FileDone(w, build, y, t.files)
  }

  lemma DoneLater(w: World, build: bool, x: Path, a: seq<Path>, b: seq<Path>)
    requires FileDone(w, build, x, a) && forall y :: y in a ==> y in b
    ensures FileDone(w, build, x, b)
  {
    assert CallsDone(w, w.files[x].calls, b);
  }

  lemma GrownTwice(w: World, build: bool, r: set<Path>, s: Noted, t: Noted, u: Noted)
    requires Grown(w, build, r, s, t) && Grown(w, build, r, t, u)
    ensures Grown(w, build, r, s, u)
  {
    forall y | y in u.files && y !in s.files ensures y in r && FileDone(w, build, y, u.files) {
      if y in t.files { DoneLater(w, build, y, t.files, u.files); }
    }
  }

  /** What compiling a file of the region brings in is in the region. */
  ghost predicate Region(w: World, build: bool, r: set<Path>) {
    forall x, y :: x in r && Brings(w, build, x, y) ==> y in r
  }

  ghost predicate Watched(w: World, build: bool, r: set<Path>, s: Noted) {
    Lossless(w, build) && ValidWorld(w) && Region(w, build, r) && Deep(w, build, s)
  }

  ghost predicate GroupIn(w: World, names: seq<Path>, r: set<Path>) {
    AllSound(w, names) ==> forall y :: y in names && y in w.files ==> y in r
  }

  ghost predicate ArgsIn(w: World, args: seq<PathArg>, r: set<Path>) {
    forall arg :: arg in args && arg.files.Some? ==> GroupIn(w, arg.files.value, r)
  }

  ghost predicate CallsIn(w: World, calls: seq<ImportCall>, r: set<Path>) {
    forall call :: call in calls ==> ArgsIn(w, call.paths, r)
  }

  ghost predicate ModulesIn(w: World, build: bool, names: seq<Name>, r: set<Path>) {
    build ==> forall m :: Wanted(w, [], names, m) && w.modules[m] in w.files ==> w.modules[m] in r
  }

  lemma FileIn(w: World, build: bool, x: Path, r: set<Path>)
    requires Region(w, build, r) && x in r && x in w.files
    ensures ModulesIn(w, build, ModuleNames(w.files[x].calls), r) && CallsIn(w, w.files[x].calls, r)
  {
    forall m | build && Wanted(w, [], ModuleNames(w.files[x].calls), m) && w.modules[m] in w.files ensures w.modules[m] in r {
      assert Brings(w, build, x, w.modules[m]);
    }
    forall call, arg | call in w.files[x].calls && arg in call.paths && arg.files.Some? ensures GroupIn(w, arg.files.value, r) {
      assert HasArg(w, x, arg);
      ArgIn(w, build, x, arg, r);
    }
  }

  lemma ArgIn(w: World, build: bool, x: Path, arg: PathArg, r: set<Path>)
    requires Region(w, build, r) && x in r && HasArg(w, x, arg) && arg.files.Some?
    ensures GroupIn(w, arg.files.value, r)
  {
    if Asks(w, arg) { ArgBrings(w, build, x, arg); }
  }

  least lemma FileGrows(w: World, build: bool, r: set<Path>, x: Path, s: Noted, t: Noted, ok: bool)
    requires Watched(w, build, r, s) && (x in w.files ==> x in r) && FileRuns(w, build, x, s, t, ok)
    ensures Grown(w, build, r, s, t) && x in t.files
  {
    var noted := s.(files := s.files + [x]);
    ImportGrows(w, build, r, x, noted, t, ok);
    FileStuck(w, build, x, s, t, ok);
  }

  least lemma ImportGrows(w: World, build: bool, r: set<Path>, x: Path, s: Noted, t: Noted, ok: bool)
    requires Watched(w, build, r, s) && (x in w.files ==> x in r) && ImportRuns(w, build, x, s, t, ok)
    ensures Grown(w, build, r, s, t) && x in w.files
    ensures ModulesDone(w, build, ModuleNames(w.files[x].calls), t.files) && CallsDone(w, w.files[x].calls, t.files)
  {
    var names, calls := ModuleNames(w.files[x].calls), w.files[x].calls;
    var u, found :| ModulesRun(w, build, names, s, u, found) && (found ==> CallsRun(w, build, calls, u, t));
    ModulesOk(w, build, names, s, u, found);
    FileIn(w, build, x, r);
    ModulesGrow(w, build, r, names, s, u, found);
    CallsGrow(w, build, r, calls, u, t);
    GrownTwice(w, build, r, s, u, t);
  }

  least lemma ModulesGrow(w: World, build: bool, r: set<Path>, names: seq<Name>, s: Noted, t: Noted, ok: bool)
    requires Watched(w, build, r, s) && ModulesIn(w, build, names, r) && ModulesRun(w, build, names, s, t, ok)
    ensures Grown(w, build, r, s, t) && ModulesDone(w, build, names, t.files)
  {
    if names != [] && build {
      var modules, paths :| IsSearch(w, s.modules, names, modules, paths) && SearchRuns(w, build, modules, paths, s, t, ok);
      SearchGrows(w, build, r, names, modules, paths, s, t, ok);
    }
  }

  least lemma SearchGrows(w: World, build: bool, r: set<Path>, names: seq<Name>, modules: seq<Name>, paths: seq<Path>, s: Noted, t: Noted, ok: bool)
    requires Watched(w, build, r, s) && ModulesIn(w, build, names, r) && build && IsSearch(w, s.modules, names, modules, paths)
    requires SearchRuns(w, build, modules, paths, s, t, ok)
    ensures Grown(w, build, r, s, t) && ModulesDone(w, build, names, t.files)
  {
    var u :| GroupRuns(w, build, paths, false, s, u, ok) && NotesSearch(u, modules, t, ok);
    ModuleGroupSound(w, s.modules, modules, paths);
    SearchIn(w, names, modules, paths, s.modules, r);
    GroupOk(w, build, paths, false, s, u, ok);
    GroupGrows(w, build, r, paths, false, s, u, ok);
    SearchLeads(w, r, names, modules, paths, s, u);
    SearchDeep(w, names, modules, s, u, t);
  }

  least lemma CallsGrow(w: World, build: bool, r: set<Path>, calls: seq<ImportCall>, s: Noted, t: Noted)
    requires Watched(w, build, r, s) && CallsIn(w, calls, r) && CallsRun(w, build, calls, s, t)
    ensures Grown(w, build, r, s, t) && CallsDone(w, calls, t.files)
  {
    if calls != [] {
      var u :| CallsRun(w, build, Most(calls), s, u) && ArgsRun(w, build, Last(calls).paths, u, t);
      CallsGrow(w, build, r, Most(calls), s, u);
      ArgsGrow(w, build, r, Last(calls).paths, u, t);
      GrownTwice(w, build, r, s, u, t);
      assert calls == Most(calls) + [Last(calls)];
    }
  }

  least lemma ArgsGrow(w: World, build: bool, r: set<Path>, args: seq<PathArg>, s: Noted, t: Noted)
    requires Watched(w, build, r, s) && ArgsIn(w, args, r) && ArgsRun(w, build, args, s, t)
    ensures Grown(w, build, r, s, t) && ArgsDone(w, args, t.files)
  {
    if args != [] {
      var u :| ArgsRun(w, build, Most(args), s, u) && ArgRuns(w, build, Last(args), u, t);
      ArgsGrow(w, build, r, Most(args), s, u);
      ArgGrows(w, build, r, Last(args), u, t);
      GrownTwice(w, build, r, s, u, t);
      assert args == Most(args) + [Last(args)];
    }
  }

  least lemma ArgGrows(w: World, build: bool, r: set<Path>, arg: PathArg, s: Noted, t: Noted)
    requires Watched(w, build, r, s) && ArgsIn(w, [arg], r) && ArgRuns(w, build, arg, s, t)
    ensures Grown(w, build, r, s, t) && ArgsDone(w, [arg], t.files)
  {
    if arg.files.Some? {
      var ok :| GroupRuns(w, build, arg.files.value, arg.force, s, t, ok);
      GroupGrows(w, build, r, arg.files.value, arg.force, s, t, ok);
    }
  }

  least lemma GroupGrows(w: World, build: bool, r: set<Path>, names: seq<Path>, force: bool, s: Noted, t: Noted, ok: bool)
    requires Watched(w, build, r, s) && GroupIn(w, names, r) && GroupRuns(w, build, names, force, s, t, ok)
    ensures Grown(w, build, r, s, t) && GroupDone(w, names, t.files)
  {
    if AllSound(w, names) {
      var order :| IsOrder(w, names, order) && EmitRuns(w, build, order, force, s, t, ok);
      assert forall x :: x in order ==> x in Elements(order) && x in Readable(w, names);
      EmitGrows(w, build, r, order, force, s, t, ok);
      OrderedOnly(w, names, order);
      forall y | y in names && y in w.files ensures y in t.files { assert y in Readable(w, names) && y in Elements(order); }
    }
  }

  least lemma EmitGrows(w: World, build: bool, r: set<Path>, order: seq<Path>, force: bool, s: Noted, t: Noted, ok: bool)
    requires Watched(w, build, r, s) && (forall y :: y in order && y in w.files ==> y in r) && EmitRuns(w, build, order, force, s, t, ok)
    ensures Grown(w, build, r, s, t) && forall y :: y in order && y in w.files ==> y in t.files
  {
    if order != [] {
      var u, so :| EmitRuns(w, build, Most(order), force, s, u, so)
        && if so then NextRuns(w, build, Last(order), force, u, t, ok) else !ok && t == u;
      EmitOk(w, build, Most(order), force, s, u, so);
      EmitGrows(w, build, r, Most(order), force, s, u, so);
      NextGrows(w, build, r, Last(order), force, u, t, ok);
      GrownTwice(w, build, r, s, u, t);
      assert order == Most(order) + [Last(order)];
    }
  }

  least lemma NextGrows(w: World, build: bool, r: set<Path>, x: Path, force: bool, s: Noted, t: Noted, ok: bool)
    requires Watched(w, build, r, s) && (x in w.files ==> x in r) && NextRuns(w, build, x, force, s, t, ok)
    ensures Grown(w, build, r, s, t) && (x in w.files ==> x in t.files)
  {
    if Available(w, s.files, x, force) { FileGrows(w, build, r, x, s, t, ok); }
  }

  /** Where the files of a group are in some order at all, no class extensions go round. */
  lemma OrderedOnly(w: World, names: seq<Path>, order: seq<Path>)
    requires IsOrder(w, names, order)
    ensures Orderable(w, names)
  {
    forall g | IsDependencyGraph(w, names, g) ensures Acyclic(g) {
      forall p {:trigger IsPath(g, p)} | IsPath(g, p) && |p| > 1 ensures p[0] != p[|p| - 1] {
        var i, j := PathAscends(w, names, g, order, p);
      }
    }
  }

  lemma {:induction false} PathAscends(w: World, names: seq<Path>, g: Graph, order: seq<Path>, p: seq<Path>) returns (i: nat, j: nat)
    requires IsOrder(w, names, order) && IsDependencyGraph(w, names, g) && IsPath(g, p)
    ensures i < |order| && j < |order| && order[i] == p[0] && order[j] == p[|p| - 1]
    ensures |p| > 1 ==> i < j
    decreases |p|
  {
    var x := p[|p| - 1];
    assert x in g by { if |p| > 1 { assert Edge(g, p[|p| - 2], x); } }
    assert x in Elements(order);
    j :| j < |order| && order[j] == x;
    i := j;
    if |p| > 1 {
      var most, k := p[..|p| - 1], j;
      i, k := PathAscends(w, names, g, order, most);
      assert Edge(g, most[|most| - 1], x) && Extends(w, names, order[k], order[j]);
    }
  }

  // ---------- Modules ----------

  lemma {:induction false} FirstNoted(compiled: seq<Name>, c: seq<Name>) returns (i: nat)
    ensures i <= |c| && (forall k :: 0 <= k < i ==> c[k] !in compiled) && (i < |c| ==> c[i] in compiled)
  {
    i := 0;
    while i < |c| && c[i] !in compiled
      invariant i <= |c| && forall k :: 0 <= k < i ==> c[k] !in compiled
    {
      i := i + 1;
    }
  }

  lemma ChainFrom(w: World, c: seq<Name>, i: nat)
    requires Chain(w, [], c) && i < |c|
    ensures Chain(w, [], c[i..])
  {
    var d := c[i..];
    forall k, l | 0 <= k < |d| - 1 && l == k + 1 ensures Follows(w, d[k], d[l]) { assert Follows(w, c[i + k], c[i + l]); }
  }

  lemma ChainJoin(w: World, c: seq<Name>, d: seq<Name>)
    requires Chain(w, [], c) && Chain(w, [], d) && c[|c| - 1] == d[0]
    ensures Chain(w, [], c + d[1..])
  {
    var e := c + d[1..];
    forall k, l | 0 <= k < |e| - 1 && l == k + 1 ensures Follows(w, e[k], e[l]) {
      if l < |c| {
        assert Follows(w, c[k], c[l]);
      } else {
        var i, j := k - |c| + 1, l - |c| + 1;
        assert Follows(w, d[i], d[j]) && e[k] == d[i] && e[l] == d[j];
      }
    }
  }

  lemma SearchIn(w: World, names: seq<Name>, modules: seq<Name>, paths: seq<Path>, compiled: seq<Name>, r: set<Path>)
    requires IsSearch(w, compiled, names, modules, paths) && ModulesIn(w, true, names, r)
    ensures forall y :: y in paths && y in w.files ==> y in r
  {
    forall y | y in paths && y in w.files ensures y in r {
      var i :| 0 <= i < |paths| && paths[i] == y;
      WantedAnyway(w, compiled, names, modules[i]);
    }
  }

  /** The files of all modules that the names lead to are noted: listed now, or reached from a module noted before. */
  lemma SearchLeads(w: World, r: set<Path>, names: seq<Name>, modules: seq<Name>, paths: seq<Path>, s: Noted, u: Noted)
    requires IsSearch(w, s.modules, names, modules, paths) && Grown(w, true, r, s, u)
    requires forall y :: y in paths && y in w.files ==> y in u.files
    ensures ModulesDone(w, true, names, u.files)
  {
    forall m | Wanted(w, [], names, m) && w.modules[m] in w.files ensures w.modules[m] in u.files {
      var c :| Chain(w, [], c) && FromNames(w, names, c[0]) && c[|c| - 1] == m;
      var i := FirstNoted(s.modules, c);
      if i < |c| {
        ChainFrom(w, c, i);
        assert c[i..][|c| - i - 1] == m;
      } else {
        assert Chain(w, s.modules, c);
        WantedListed(w, s.modules, names, modules, paths, m);
      }
    }
  }

  lemma SearchDeep(w: World, names: seq<Name>, modules: seq<Name>, s: Noted, u: Noted, t: Noted)
    requires Deep(w, true, u) && ModulesDone(w, true, names, u.files) && AddsNames(u, modules, t)
    requires forall m :: m in modules ==> Wanted(w, [], names, m)
    ensures Deep(w, true, t)
  {
    forall c | Chain(w, [], c) && c[0] in t.modules && w.modules[c[|c| - 1]] in w.files ensures w.modules[c[|c| - 1]] in t.files {
      if c[0] in modules {
        var d :| Chain(w, [], d) && FromNames(w, names, d[0]) && d[|d| - 1] == c[0];
        ChainJoin(w, d, c);
        var e := d + c[1..];
        assert e[0] == d[0] && e[|e| - 1] == c[|c| - 1];
        assert Wanted(w, [], names, c[|c| - 1]);
      }
    }
  }

  // ---------- When a build ends ----------

  lemma DoneBrings(w: World, build: bool, x: Path, files: seq<Path>, y: Path)
    requires FileDone(w, build, x, files) && Brings(w, build, x, y)
    ensures y in files
  {
  }

  lemma {:induction false} DoneAlong(w: World, build: bool, files: seq<Path>, p: seq<Path>)
    requires IsPath(BringsGraph(w, build), p) && p[0] in files && forall y :: y in files ==> FileDone(w, build, y, files)
    ensures p[|p| - 1] in files
    decreases |p|
  {
    if |p| > 1 {
      var most := p[..|p| - 1];
      DoneAlong(w, build, files, most);
      assert Edge(BringsGraph(w, build), most[|most| - 1], p[|p| - 1]);
      DoneBrings(w, build, most[|most| - 1], files, p[|p| - 1]);
    }
  }

  /** A run of a new compiler that came back has noted exactly the files that the first one leads to, and none of them is
      on a cycle of forced imports or asks for a group that goes round. */
  lemma CompiledAreLed(w: World, build: bool, x: Path, t: Noted, ok: bool)
    requires Lossless(w, build) && ValidWorld(w) && x in w.files && FileRuns(w, build, x, Noted([], []), t, ok)
    ensures ok && forall y :: y in t.files <==> Led(w, build, x, y)
    ensures forall y :: Led(w, build, x, y) ==> Fine(w, y)
  {
    var g := BringsGraph(w, build);
    ReachSelf(g, x);
    forall y, z | y in Reach(g, x) && Brings(w, build, y, z) ensures z in Reach(g, x) { ReachOn(g, x, y, z); }
    FileOk(w, build, x, Noted([], []), t, ok);
    FileGrows(w, build, Reach(g, x), x, Noted([], []), t, ok);
    forall y | Led(w, build, x, y) ensures y in t.files && Fine(w, y) {
      var p :| Leads(g, p, x, y);
      DoneAlong(w, build, t.files, p);
      assert FileDone(w, build, y, t.files);
    }
  }

  /** Where no module's file is unsound and no group of module files goes round in its class extensions, compiling a
      file by a new compiler comes back if and only if it leads to no file on a cycle of forced imports, and to no path
      argument whose group goes round. */
  lemma CompilingEnds(w: World, build: bool, x: Path)
    requires Lossless(w, build) && ValidWorld(w) && x in w.files
    requires build ==> forall y :: Led(w, build, x, y) ==> SearchesFit(w, y)
    ensures ComesBack(w, build, x, Noted([], [])) <==> forall y :: Led(w, build, x, y) ==> Fine(w, y)
  {
    if forall y :: Led(w, build, x, y) ==> Fine(w, y) { BuildableEnds(w, build, x, Noted([], [])); }
    if ComesBack(w, build, x, Noted([], [])) {
      var t, ok :| FileRuns(w, build, x, Noted([], []), t, ok);
      CompiledAreLed(w, build, x, t, ok);
    }
  }

  /** A file that imports itself by force, and a module whose file is unsound. */
  function SpoiltLoop(): World {
    World(true, map["a" := Source(true, [], [ImportCall([PathArg(Some(["a"]), true)], ["M"])], []), "m" := Source(false, [], [], [])],
          {"a", "m"}, map["M" := "m"], map[], {})
  }

  lemma SpoiltSearch() returns (modules: seq<Name>, paths: seq<Path>)
    ensures IsSearch(SpoiltLoop(), [], ["M"], modules, paths) && !AllSound(SpoiltLoop(), paths)
  {
    var w := SpoiltLoop();
    modules, paths := ScanGoes(w, [], ["M"], [], []);
    assert Settled(w, [], paths, "M") && "m" in Readable(w, paths);
  }

  lemma SpoiltEdge()
    ensures Edge(ForcedGraph(SpoiltLoop()), "a", "a")
  {
    var w := SpoiltLoop();
    assert HasArg(w, "a", w.files["a"].calls[0].paths[0]) && AllSound(w, ["a"]);
  }

  /** There the module fails, and the file with it, before the loop is entered: not every cycle is fatal. */
  lemma SpoiltLoopEnds(s: Noted)
    requires s.modules == []
    ensures var w := SpoiltLoop(); Edge(ForcedGraph(w), "a", "a") && FileRuns(w, true, "a", s, s.(files := s.files + ["a"]), false)
  {
    var w, t := SpoiltLoop(), s.(files := s.files + ["a"]);
    SpoiltEdge();
    assert ModuleNames(w.files["a"].calls) == ["M"];
    var modules, paths := SpoiltSearch();
    SearchEnds(w, true, ["M"], t, modules, paths, t, t, false);
    assert ImportRuns(w, true, "a", t, t, false);
  }
}
