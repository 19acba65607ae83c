/** The recursion of a build as relations between what is noted before a call and after it: a call that never comes
    back relates nothing. The order of a group and the result of a module search are left as open as the program
    leaves them. */
module LinkRuns {
  import opened Common
  import opened Sources
  import opened FileOrder
  import opened FileGroup
  import opened ModuleScan
  import opened Emission
  import opened LinkTexts
  import opened LinkSteps

  /** What a compiler has noted, and what its recursion depends on. */
  datatype Noted = Noted(files: seq<Path>, modules: seq<Name>)

  predicate Available(w: World, files: seq<Path>, path: Path, force: bool) {
    path in w.present && (force || path !in files)
  }

  function Most<T>(s: seq<T>): seq<T>
    requires s != []
  {
    s[..|s| - 1]
  }

  function Last<T>(s: seq<T>): T
    requires s != []
  {
    s[|s| - 1]
  }

  ghost predicate AddsNames(s: Noted, names: seq<Name>, t: Noted) {
    t.files == s.files && forall m :: m in t.modules <==> m in s.modules || m in names
  }

  /** The modules of a search are noted if their group came through. */
  ghost predicate NotesSearch(u: Noted, modules: seq<Name>, t: Noted, ok: bool) {
    if ok then AddsNames(u, modules, t) else t == u
  }

  // ---------- One call ----------

  least predicate FileRuns(w: World, build: bool, x: Path, s: Noted, t: Noted, ok: bool) {
    ImportRuns(w, build, x, s.(files := s.files + [x]), t, ok)
  }

  /** A failing module group spoils the file; the paths are not looked at then. */
  least predicate ImportRuns(w: World, build: bool, x: Path, s: Noted, t: Noted, ok: bool) {
    x in w.files && exists u, found ::
      ModulesRun(w, build, ModuleNames(w.files[x].calls), s, u, found)
      && if found then ok && CallsRun(w, build, w.files[x].calls, u, t) else !ok && t == u
  }

  least predicate ModulesRun(w: World, build: bool, names: seq<Name>, s: Noted, t: Noted, ok: bool) {
    if names == [] then ok && t == s
    else if !build then ok && AddsNames(s, names, t)
    else exists modules, paths :: IsSearch(w, s.modules, names, modules, paths) && SearchRuns(w, build, modules, paths, s, t, ok)
  }

  least predicate SearchRuns(w: World, build: bool, modules: seq<Name>, paths: seq<Path>, s: Noted, t: Noted, ok: bool) {
    exists u :: GroupRuns(w, build, paths, false, s, u, ok) && NotesSearch(u, modules, t, ok)
  }

  least predicate CallsRun(w: World, build: bool, calls: seq<ImportCall>, s: Noted, t: Noted) {
    if calls == [] then t == s
    else exists u ::
      CallsRun(w, build, Most(calls), s, u) && ArgsRun(w, build, Last(calls).paths, u, t)
  }

  least predicate ArgsRun(w: World, build: bool, args: seq<PathArg>, s: Noted, t: Noted) {
    if args == [] then t == s
    else exists u ::
      ArgsRun(w, build, Most(args), s, u) && ArgRuns(w, build, Last(args), u, t)
  }

  /** Whatever fails here is only logged. */
  least predicate ArgRuns(w: World, build: bool, arg: PathArg, s: Noted, t: Noted) {
    if arg.files.None? then t == s
    else exists ok :: GroupRuns(w, build, arg.files.value, arg.force, s, t, ok)
  }

  least predicate GroupRuns(w: World, build: bool, names: seq<Path>, force: bool, s: Noted, t: Noted, ok: bool) {
    if !AllSound(w, names) then !ok && t == s
    else exists order :: IsOrder(w, names, order) && EmitRuns(w, build, order, force, s, t, ok)
  }

  /** The first file that fails ends the loop. */
  least predicate EmitRuns(w: World, build: bool, order: seq<Path>, force: bool, s: Noted, t: Noted, ok: bool) {
    if order == [] then ok && t == s
    else exists u, so ::
      EmitRuns(w, build, Most(order), force, s, u, so)
      && if so then NextRuns(w, build, Last(order), force, u, t, ok) else !ok && t == u
  }

  least predicate NextRuns(w: World, build: bool, x: Path, force: bool, s: Noted, t: Noted, ok: bool) {
    if Available(w, s.files, x, force) then FileRuns(w, build, x, s, t, ok) else ok && t == s
  }

  lemma OneMoreCall(w: World, build: bool, calls: seq<ImportCall>, i: nat, s: Noted, u: Noted, t: Noted)
    requires i < |calls| && CallsRun(w, build, calls[..i], s, u) && ArgsRun(w, build, calls[i].paths, u, t)
    ensures CallsRun(w, build, calls[..i + 1], s, t)
  {
    assert Most(calls[..i + 1]) == calls[..i];
  }

  lemma OneMoreArg(w: World, build: bool, args: seq<PathArg>, i: nat, s: Noted, u: Noted, t: Noted)
    requires i < |args| && ArgsRun(w, build, args[..i], s, u) && ArgRuns(w, build, args[i], u, t)
    ensures ArgsRun(w, build, args[..i + 1], s, t)
  {
    assert Most(args[..i + 1]) == args[..i];
  }

  lemma OneMoreFile(w: World, build: bool, order: seq<Path>, i: nat, force: bool, s: Noted, u: Noted, t: Noted, ok: bool)
    requires i < |order| && EmitRuns(w, build, order[..i], force, s, u, true) && NextRuns(w, build, order[i], force, u, t, ok)
    ensures EmitRuns(w, build, order[..i + 1], force, s, t, ok)
  {
    assert Most(order[..i + 1]) == order[..i];
  }

  lemma {:induction false} FailedEarly(w: World, build: bool, order: seq<Path>, i: nat, force: bool, s: Noted, t: Noted)
    requires i <= |order| && EmitRuns(w, build, order[..i], force, s, t, false)
    ensures EmitRuns(w, build, order, force, s, t, false)
    decreases |order| - i
  {
    if i < |order| {
      assert Most(order[..i + 1]) == order[..i];
      FailedEarly(w, build, order, i + 1, force, s, t);
    } else {
      assert order[..i] == order;
    }
  }

  // ---------- Calls that come back have not failed ----------

  least lemma FileOk(w: World, build: bool, x: Path, s: Noted, t: Noted, ok: bool)
    requires Lossless(w, build) && FileRuns(w, build, x, s, t, ok)
    ensures ok
  {
    ImportOk(w, build, x, s.(files := s.files + [x]), t, ok);
  }

  least lemma ImportOk(w: World, build: bool, x: Path, s: Noted, t: Noted, ok: bool)
    requires Lossless(w, build) && ImportRuns(w, build, x, s, t, ok)
    ensures ok
  {
    var names := ModuleNames(w.files[x].calls);
    var u, found :| ModulesRun(w, build, names, s, u, found) && (found ==> ok);
    ModulesOk(w, build, names, s, u, found);
  }

  least lemma ModulesOk(w: World, build: bool, names: seq<Name>, s: Noted, t: Noted, ok: bool)
    requires Lossless(w, build) && ModulesRun(w, build, names, s, t, ok)
    ensures ok
  {
    if names != [] && build {
      var modules, paths :| IsSearch(w, s.modules, names, modules, paths) && SearchRuns(w, build, modules, paths, s, t, ok);
      ModuleGroupSound(w, s.modules, modules, paths);
      SearchOk(w, build, modules, paths, s, t, ok);
    }
  }

  least lemma SearchOk(w: World, build: bool, modules: seq<Name>, paths: seq<Path>, s: Noted, t: Noted, ok: bool)
    requires Lossless(w, build) && AllSound(w, paths) && SearchRuns(w, build, modules, paths, s, t, ok)
    ensures ok
  {
    var u :| GroupRuns(w, build, paths, false, s, u, ok);
    GroupOk(w, build, paths, false, s, u, ok);
  }

  least lemma GroupOk(w: World, build: bool, names: seq<Path>, force: bool, s: Noted, t: Noted, ok: bool)
    requires Lossless(w, build) && AllSound(w, names) && GroupRuns(w, build, names, force, s, t, ok)
    ensures ok
  {
    var order :| IsOrder(w, names, order) && EmitRuns(w, build, order, force, s, t, ok);
    EmitOk(w, build, order, force, s, t, ok);
  }

  least lemma EmitOk(w: World, build: bool, order: seq<Path>, force: bool, s: Noted, t: Noted, ok: bool)
    requires Lossless(w, build) && EmitRuns(w, build, order, force, s, t, ok)
    ensures ok
  {
    if order != [] {
      var u, so :| EmitRuns(w, build, Most(order), force, s, u, so)
        && if so then NextRuns(w, build, Last(order), force, u, t, ok) else !ok && t == u;
      EmitOk(w, build, Most(order), force, s, u, so);
      NextOk(w, build, Last(order), force, u, t, ok);
    }
  }

  least lemma NextOk(w: World, build: bool, x: Path, force: bool, s: Noted, t: Noted, ok: bool)
    requires Lossless(w, build) && NextRuns(w, build, x, force, s, t, ok)
    ensures ok
  {
    if Available(w, s.files, x, force) { FileOk(w, build, x, s, t, ok); }
  }

  lemma ModuleGroupSound(w: World, compiled: seq<Name>, modules: seq<Name>, paths: seq<Path>)
    requires Lossless(w, true) && Listed(w, compiled, modules, paths)
    ensures AllSound(w, paths)
  {
  }

  // ---------- On a cycle of forced imports nothing comes back ----------

  lemma LoopGoesOn(w: World, x: Path) returns (y: Path)
    requires Looped(w, x)
    ensures Looped(w, y) && Edge(ForcedGraph(w), x, y)
  {
    var g := ForcedGraph(w);
    var p :| Leads(g, p, x, x) && |p| > 1;
    y := p[1];
    var q := Rotate(g, p);
    assert Leads(g, q, y, y);
  }

  ghost predicate ForcesIn(w: World, args: seq<PathArg>, y: Path) {
    y in w.files
    && exists arg :: arg in args && arg.force && arg.files.Some? && AllSound(w, arg.files.value) && y in arg.files.value
  }

  least lemma FileStuck(w: World, build: bool, x: Path, s: Noted, t: Noted, ok: bool)
    requires Lossless(w, build) && ValidWorld(w) && FileRuns(w, build, x, s, t, ok)
    ensures !Looped(w, x)
  {
    ImportStuck(w, build, x, s.(files := s.files + [x]), t, ok);
  }

  least lemma ImportStuck(w: World, build: bool, x: Path, s: Noted, t: Noted, ok: bool)
    requires Lossless(w, build) && ValidWorld(w) && ImportRuns(w, build, x, s, t, ok)
    ensures !Looped(w, x)
  {
    var names, calls := ModuleNames(w.files[x].calls), w.files[x].calls;
    var u, found :| ModulesRun(w, build, names, s, u, found) && (found ==> CallsRun(w, build, calls, u, t));
    ModulesOk(w, build, names, s, u, found);
    if Looped(w, x) {
      var y := LoopGoesOn(w, x);
      CallsStuck(w, build, calls, y, u, t);
    }
  }

  least lemma CallsStuck(w: World, build: bool, calls: seq<ImportCall>, y: Path, s: Noted, t: Noted)
    requires Lossless(w, build) && ValidWorld(w) && CallsRun(w, build, calls, s, t)
    requires exists call :: call in calls && ForcesIn(w, call.paths, y)
    ensures !Looped(w, y)
  {
    var u :| CallsRun(w, build, Most(calls), s, u) && ArgsRun(w, build, Last(calls).paths, u, t);
    if ForcesIn(w, Last(calls).paths, y) {
      ArgsStuck(w, build, Last(calls).paths, y, u, t);
    } else {
      CallsStuck(w, build, Most(calls), y, s, u);
    }
  }

  least lemma ArgsStuck(w: World, build: bool, args: seq<PathArg>, y: Path, s: Noted, t: Noted)
    requires Lossless(w, build) && ValidWorld(w) && ArgsRun(w, build, args, s, t) && ForcesIn(w, args, y)
    ensures !Looped(w, y)
  {
    var u :| ArgsRun(w, build, Most(args), s, u) && ArgRuns(w, build, Last(args), u, t);
    if ForcesIn(w, Most(args), y) {
      ArgsStuck(w, build, Most(args), y, s, u);
    } else {
      ArgStuck(w, build, Last(args), y, u, t);
    }
  }

  least lemma ArgStuck(w: World, build: bool, arg: PathArg, y: Path, s: Noted, t: Noted)
    requires Lossless(w, build) && ValidWorld(w) && ArgRuns(w, build, arg, s, t) && ForcesIn(w, [arg], y)
    ensures !Looped(w, y)
  {
    var ok :| GroupRuns(w, build, arg.files.value, arg.force, s, t, ok);
    GroupStuck(w, build, arg.files.value, y, s, t, ok);
  }

  least lemma GroupStuck(w: World, build: bool, names: seq<Path>, y: Path, s: Noted, t: Noted, ok: bool)
    requires Lossless(w, build) && ValidWorld(w) && AllSound(w, names) && y in names && y in w.files
    requires GroupRuns(w, build, names, true, s, t, ok)
    ensures !Looped(w, y)
  {
    var order :| IsOrder(w, names, order) && EmitRuns(w, build, order, true, s, t, ok);
    assert y in Readable(w, names) && y in Elements(order);
    EmitStuck(w, build, order, y, s, t, ok);
  }

  least lemma EmitStuck(w: World, build: bool, order: seq<Path>, y: Path, s: Noted, t: Noted, ok: bool)
    requires Lossless(w, build) && ValidWorld(w) && y in order && y in w.files
    requires EmitRuns(w, build, order, true, s, t, ok)
    ensures !Looped(w, y)
  {
    var u, so :| EmitRuns(w, build, Most(order), true, s, u, so)
      && if so then NextRuns(w, build, Last(order), true, u, t, ok) else !ok && t == u;
    if y in Most(order) {
      EmitStuck(w, build, Most(order), y, s, u, so);
    } else {
      EmitOk(w, build, Most(order), true, s, u, so);
      NextStuck(w, build, y, u, t, ok);
    }
  }

  least lemma NextStuck(w: World, build: bool, y: Path, s: Noted, t: Noted, ok: bool)
    requires Lossless(w, build) && ValidWorld(w) && y in w.files && NextRuns(w, build, y, true, s, t, ok)
    ensures !Looped(w, y)
  {
    FileStuck(w, build, y, s, t, ok);
  }

  // ---------- Without such a cycle every call comes back ----------

  lemma {:induction false} SortGoes(keys: set<Path>, counters: map<Path, nat>) returns (order: seq<Path>)
    requires keys <= counters.Keys
    ensures Distinct(order) && Elements(order) == keys
    ensures forall i, j :: 0 <= i < j < |order| ==> counters[order[i]] <= counters[order[j]]
    decreases keys
  {
    order := [];
    if keys != {} {
      LeastExists(keys, counters);
      var m :| m in keys && forall k :: k in keys ==> counters[m] <= counters[k];
      var rest := SortGoes(keys - {m}, counters);
      assert forall x :: x in rest ==> x in Elements(rest);
      order := [m] + rest;
      assert Elements(order) == {m} + Elements(rest);
    }
  }

  lemma OrderGoes(w: World, names: seq<Path>) returns (order: seq<Path>)
    requires Orderable(w, names)
    ensures IsOrder(w, names, order)
  {
    var all := Readable(w, names);
    var g: Graph := map x | x in all :: Listing(set y | y in all && Extends(w, names, x, y));
    forall x, y ensures Edge(g, x, y) <==> Extends(w, names, x, y) {
      if Extends(w, names, x, y) { ExtendedReadable(w, names, x, y); }
    }
    assert IsDependencyGraph(w, names, g);
    order := SortGoes(all, map x | x in all :: |PathsTo(g, x)|);
    ParentsFirst(w, names, g, order);
  }

  lemma {:induction false} ScanGoes(w: World, compiled: seq<Name>, names: seq<Name>, m0: seq<Name>, p0: seq<Path>)
    returns (m1: seq<Name>, p1: seq<Path>)
    requires Listed(w, compiled, m0, p0)
    ensures Visited(w, compiled, names, m0, p0, m1, p1)
    decreases Unlisted(w, p0), |names| + 1
  {
    if names == [] {
      m1, p1 := m0, p0;
    } else {
      var m, p := ScanGoes(w, compiled, Most(names), m0, p0);
      LessUnlisted(w, p0, p);
      m1, p1 := ScanOne(w, compiled, Last(names), m, p);
      ScanNext(w, compiled, names, m0, p0, m, p, m1, p1);
    }
  }

  lemma ScanNext(w: World, compiled: seq<Name>, names: seq<Name>, m0: seq<Name>, p0: seq<Path>,
                 m: seq<Name>, p: seq<Path>, m1: seq<Name>, p1: seq<Path>)
    requires names != [] && Visited(w, compiled, Most(names), m0, p0, m, p) && Visited(w, compiled, [Last(names)], m, p, m1, p1)
    ensures Visited(w, compiled, names, m0, p0, m1, p1)
  {
    VisitBoth(w, compiled, Most(names), [Last(names)], m0, p0, m, p, m1, p1);
    assert Most(names) + [Last(names)] == names;
  }

  lemma {:induction false} ScanOne(w: World, compiled: seq<Name>, n: Name, m0: seq<Name>, p0: seq<Path>)
    returns (m1: seq<Name>, p1: seq<Path>)
    requires Listed(w, compiled, m0, p0)
    ensures Visited(w, compiled, [n], m0, p0, m1, p1)
    decreases Unlisted(w, p0), 0
  {
    m1, p1 := m0, p0;
    var m := Resolved(w, n);
    if Open(w, compiled, m) && w.modules[m] !in p0 {
      var path := w.modules[m];
      assert path in w.modules.Values && path in Elements(p0 + [path]);
      LessUnlisted(w, p0, p0 + [path]);
      m1, p1 := ScanGoes(w, compiled, Imported(w, path), m0 + [m], p0 + [path]);
      VisitModule(w, compiled, n, m0, p0, m1, p1);
    }
  }

  lemma {:induction false} FileGoes(w: World, build: bool, x: Path, importer: Path, s: Noted) returns (t: Noted, ok: bool)
    requires Buildable(w, build, importer) && Brings(w, build, importer, x) && (x in s.files ==> Forces(w, importer, x))
    ensures FileRuns(w, build, x, s, t, ok) && Extended(s.files, t.files)
    decreases Left(w, s.files), Reach(ForcedGraph(w), importer), 0, 0
  {
    BuildableNow(w, build, importer);
    BuildableNext(w, build, importer, x);
    NotingShrinks(w, s.files, x, importer);
    t, ok := ImportGoes(w, build, x, s.(files := s.files + [x]));
    FirstOfMore(s.files, x, t.files);
  }

  lemma {:induction false} ImportGoes(w: World, build: bool, x: Path, s: Noted) returns (t: Noted, ok: bool)
    requires Buildable(w, build, x)
    ensures ImportRuns(w, build, x, s, t, ok) && Extended(s.files, t.files)
    decreases Left(w, s.files), Reach(ForcedGraph(w), x), 7, 0
  {
    var u;
    u, ok := ModulesGo(w, build, x, s);
    t := u;
    if ok {
      LeftShrinks(w, s.files, u.files);
      t := CallsGo(w, build, x, w.files[x].calls, u);
      ExtendedTwice(s.files, u.files, t.files);
    }
  }

  lemma {:induction false} ModulesGo(w: World, build: bool, x: Path, s: Noted) returns (t: Noted, ok: bool)
    requires Buildable(w, build, x)
    ensures ModulesRun(w, build, ModuleNames(w.files[x].calls), s, t, ok) && Extended(s.files, t.files)
    decreases Left(w, s.files), Reach(ForcedGraph(w), x), 6, 0
  {
    var names := ModuleNames(w.files[x].calls);
    t, ok := s, true;
    if names == [] { return; }
    if !build {
      t := s.(modules := s.modules + names);
      return;
    }
    var modules, paths := ScanGoes(w, s.modules, names, [], []);
    SearchFits(w, s.modules, x, modules, paths);
    var u;
    u, ok := GroupGoes(w, build, paths, false, x, s);
    t := if ok then u.(modules := u.modules + modules) else u;
    SearchEnds(w, build, names, s, modules, paths, u, t, ok);
  }

  lemma SearchEnds(w: World, build: bool, names: seq<Name>, s: Noted, modules: seq<Name>, paths: seq<Path>, u: Noted, t: Noted, ok: bool)
    requires names != [] && build && IsSearch(w, s.modules, names, modules, paths)
    requires GroupRuns(w, build, paths, false, s, u, ok) && NotesSearch(u, modules, t, ok)
    ensures ModulesRun(w, build, names, s, t, ok)
  {
    assert SearchRuns(w, build, modules, paths, s, t, ok);
  }

  lemma {:induction false} CallsGo(w: World, build: bool, x: Path, calls: seq<ImportCall>, s: Noted) returns (t: Noted)
    requires Buildable(w, build, x) && forall call :: call in calls ==> call in w.files[x].calls
    ensures CallsRun(w, build, calls, s, t) && Extended(s.files, t.files)
    decreases Left(w, s.files), Reach(ForcedGraph(w), x), 5, |calls|
  {
    t := s;
    if calls != [] {
      var u := CallsGo(w, build, x, Most(calls), s);
      LeftShrinks(w, s.files, u.files);
      t := ArgsGo(w, build, x, Last(calls).paths, u);
      ExtendedTwice(s.files, u.files, t.files);
    }
  }

  lemma {:induction false} ArgsGo(w: World, build: bool, x: Path, args: seq<PathArg>, s: Noted) returns (t: Noted)
    requires Buildable(w, build, x) && forall arg :: arg in args ==> HasArg(w, x, arg)
    ensures ArgsRun(w, build, args, s, t) && Extended(s.files, t.files)
    decreases Left(w, s.files), Reach(ForcedGraph(w), x), 4, |args|
  {
    t := s;
    if args != [] {
      var u := ArgsGo(w, build, x, Most(args), s);
      LeftShrinks(w, s.files, u.files);
      t := ArgGoes(w, build, x, Last(args), u);
      ExtendedTwice(s.files, u.files, t.files);
    }
  }

  lemma {:induction false} ArgGoes(w: World, build: bool, x: Path, arg: PathArg, s: Noted) returns (t: Noted)
    requires Buildable(w, build, x) && HasArg(w, x, arg)
    ensures ArgRuns(w, build, arg, s, t) && Extended(s.files, t.files)
    decreases Left(w, s.files), Reach(ForcedGraph(w), x), 4, 0
  {
    t := s;
    if arg.files.Some? {
      BuildableNow(w, build, x);
      if Asks(w, arg) { ArgBrings(w, build, x, arg); }
      var ok;
      t, ok := GroupGoes(w, build, arg.files.value, arg.force, x, s);
    }
  }

  lemma {:induction false} GroupGoes(w: World, build: bool, names: seq<Path>, force: bool, importer: Path, s: Noted)
    returns (t: Noted, ok: bool)
    requires Buildable(w, build, importer) && GroupFits(w, names)
    requires AllSound(w, names) ==> forall y :: y in names && y in w.files ==> Brings(w, build, importer, y)
    requires force && AllSound(w, names) ==> forall y :: y in names ==> Forces(w, importer, y)
    ensures GroupRuns(w, build, names, force, s, t, ok) && Extended(s.files, t.files)
    decreases Left(w, s.files), Reach(ForcedGraph(w), importer), 3, 0
  {
    t, ok := s, false;
    if AllSound(w, names) {
      var order := OrderGoes(w, names);
      assert forall x :: x in order ==> x in Elements(order) && x in Readable(w, names);
      t, ok := EmitGoes(w, build, order, force, importer, s);
    }
  }

  lemma {:induction false} EmitGoes(w: World, build: bool, order: seq<Path>, force: bool, importer: Path, s: Noted)
    returns (t: Noted, ok: bool)
    requires Buildable(w, build, importer) && forall x :: x in order ==> Brings(w, build, importer, x) && (force ==> Forces(w, importer, x))
    ensures EmitRuns(w, build, order, force, s, t, ok) && Extended(s.files, t.files)
    decreases Left(w, s.files), Reach(ForcedGraph(w), importer), 2, |order|
  {
    t, ok := s, true;
    if order != [] {
      var u, so := EmitGoes(w, build, Most(order), force, importer, s);
      LeftShrinks(w, s.files, u.files);
      t, ok := u, so;
      if so {
        if Available(w, u.files, Last(order), force) {
          t, ok := FileGoes(w, build, Last(order), importer, u);
        }
        assert NextRuns(w, build, Last(order), force, u, t, ok);
        ExtendedTwice(s.files, u.files, t.files);
      }
    }
  }
}
