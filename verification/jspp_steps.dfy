/** Steps of a build: what is newly compiled between two states of a compiler, and the text put out meanwhile. */
module LinkSteps {
  import opened Common
  import opened Sources
  import opened FileOrder
  import opened FileGroup
  import opened ModuleScan
  import opened Emission
  import opened Closure
  import opened LinkTexts

  ghost predicate SoundWorld(w: World) {
    forall x :: x in w.files ==> w.files[x].sound
  }

  /** No module's file is unsound. Then a group fails only before it has compiled anything. */
  ghost predicate Lossless(w: World, build: bool) {
    build ==> forall m :: m in w.modules && w.modules[m] in w.files ==> w.files[w.modules[m]].sound
  }

  ghost predicate GroupFits(w: World, names: seq<Path>) {
    AllSound(w, names) ==> Orderable(w, names)
  }

  // ---------- What compiling a file leads to ----------

  /** Compiling x compiles y: a path argument stands for a group with y in it that is not given up, or the modules
      that x names lead to the one of y. */
  ghost predicate Brings(w: World, build: bool, x: Path, y: Path) {
    x in w.files && y in w.files
    && ((exists arg :: HasArg(w, x, arg) && Asks(w, arg) && y in arg.files.value)
     || (build && exists m :: Wanted(w, [], ModuleNames(w.files[x].calls), m) && w.modules[m] == y))
  }

  /** A path argument whose group is not given up. */
  ghost predicate Asks(w: World, arg: PathArg) {
    arg.files.Some? && AllSound(w, arg.files.value)
  }

  ghost function BroughtBy(w: World, build: bool, x: Path): set<Path> {
    set y | y in w.files.Keys && Brings(w, build, x, y)
  }

  ghost function BringsGraph(w: World, build: bool): (g: Graph)
    ensures WellFormed(g) && g.Keys == w.files.Keys && forall x, y :: Edge(g, x, y) <==> Brings(w, build, x, y)
  {
    map x | x in w.files :: Listing(BroughtBy(w, build, x))
  }

  /** Compiling x compiles y, directly or not. */
  ghost predicate Led(w: World, build: bool, x: Path, y: Path) {
    y in Reach(BringsGraph(w, build), x)
  }

  /** A chain of forced imports leads from x back to itself. */
  ghost predicate Looped(w: World, x: Path) {
    OnCycle(ForcedGraph(w), x)
  }

  /** In no group that a path argument of x stands for, a chain of class extensions leads back to where it started. */
  ghost predicate PathGroupsFit(w: World, x: Path) {
    forall arg :: HasArg(w, x, arg) && arg.files.Some? ==> GroupFits(w, arg.files.value)
  }

  /** Nor in any group of module files that x can ask for. */
  ghost predicate SearchesFit(w: World, x: Path)
    requires x in w.files
  {
    forall compiled, modules, paths :: IsSearch(w, compiled, ModuleNames(w.files[x].calls), modules, paths) ==> GroupFits(w, paths)
  }

  ghost predicate IsSearch(w: World, compiled: seq<Name>, names: seq<Name>, modules: seq<Name>, paths: seq<Path>) {
    Visited(w, compiled, names, [], [], modules, paths)
  }

  ghost predicate Fine(w: World, x: Path) {
    !Looped(w, x) && PathGroupsFit(w, x)
  }

  /** Compiling x leads to no file on a cycle of forced imports and to no group with a cycle of class extensions. */
  ghost predicate Buildable(w: World, build: bool, x: Path) {
    && ValidWorld(w) && x in w.files
    && forall y :: Led(w, build, x, y) ==> Fine(w, y) && (build ==> SearchesFit(w, y))
  }

  lemma BuildableNow(w: World, build: bool, x: Path)
    requires Buildable(w, build, x)
    ensures ValidWorld(w) && Fine(w, x) && (build ==> SearchesFit(w, x))
  {
    ReachSelf(BringsGraph(w, build), x);
  }

  lemma BuildableNext(w: World, build: bool, x: Path, y: Path)
    requires Buildable(w, build, x) && Brings(w, build, x, y)
    ensures Buildable(w, build, y)
  {
    var g := BringsGraph(w, build);
    assert Edge(g, x, y);
    forall z | Led(w, build, y, z) ensures Led(w, build, x, z) { ReachBehind(g, x, y, z); }
  }

  lemma WantedAnyway(w: World, compiled: seq<Name>, names: seq<Name>, m: Name)
    requires Wanted(w, compiled, names, m)
    ensures Wanted(w, [], names, m)
  {
    var c :| Chain(w, compiled, c) && FromNames(w, names, c[0]) && c[|c| - 1] == m;
    assert Chain(w, [], c);
  }

  /** The files a module search lists. */
  lemma SearchBrings(w: World, x: Path, compiled: seq<Name>, modules: seq<Name>, paths: seq<Path>)
    requires x in w.files && IsSearch(w, compiled, ModuleNames(w.files[x].calls), modules, paths)
    ensures forall y :: y in paths && y in w.files ==> Brings(w, true, x, y)
  {
    forall y | y in paths && y in w.files ensures Brings(w, true, x, y) {
      var i :| 0 <= i < |paths| && paths[i] == y;
      WantedAnyway(w, compiled, ModuleNames(w.files[x].calls), modules[i]);
    }
  }

  lemma ArgBrings(w: World, build: bool, x: Path, arg: PathArg)
    requires HasArg(w, x, arg) && Asks(w, arg)
    ensures forall y :: y in arg.files.value && y in w.files ==> Brings(w, build, x, y)
  {
  }

  ghost predicate Valid(w: World, build: bool, s: Snap) {
    Distinct(s.modules) && (build ==> Backed(w, s))
  }

  ghost predicate Steps(w: World, build: bool, starts: seq<Path>, s: Snap, t: Snap) {
    && Valid(w, build, t) && Extended(s.files, t.files) && Extended(s.code, t.code)
    && ReachedSince(w, starts, t.files, |s.files|)
    && (SoundWorld(w) ==> ClosedSince(w, build, t.files, |s.files|))
    && ModuleText(w, t.code[|s.code|..])
  }

  /** From s to t, with the text o put out: every newly compiled file whole and once, reached from the starting
      files, and with all it asks for. Texts are lost only where the file of a module is unsound. */
  ghost predicate Progress(w: World, build: bool, starts: seq<Path>, s: Snap, t: Snap, o: Text) {
    && Steps(w, build, starts, s, t) && Comes(w, starts, o)
    && Emitted(w, !Lossless(w, build), s.files, t.files, t.code[|s.code|..], o)
  }

  /** The same from within a file, whose own first n pieces are in o. */
  ghost predicate ProgressIn(w: World, build: bool, root: Path, n: nat, s: Snap, t: Snap, o: Text) {
    && Steps(w, build, [root], s, t) && Comes(w, [root], o)
    && EmittedIn(w, !Lossless(w, build), root, n, s.files, t.files, t.code[|s.code|..], o)
  }

  lemma StepsTwice(w: World, build: bool, starts: seq<Path>, s: Snap, t: Snap, u: Snap)
    requires Steps(w, build, starts, s, t) && Steps(w, build, starts, t, u)
    ensures Steps(w, build, starts, s, u)
    ensures u.code[|s.code|..] == t.code[|s.code|..] + u.code[|t.code|..]
  {
    assert u.code[|s.code|..] == t.code[|s.code|..] + u.code[|t.code|..];
    MoreModules(w, t.code[|s.code|..], u.code[|t.code|..]);
  }

  lemma ProgressFrom(w: World, build: bool, few: seq<Path>, many: seq<Path>, s: Snap, t: Snap, o: Text)
    requires Progress(w, build, few, s, t, o) && forall x :: x in few ==> x in many
    ensures Progress(w, build, many, s, t, o)
  {
  }

  lemma ProgressBehind(w: World, build: bool, root: Path, names: seq<Path>, s: Snap, t: Snap, o: Text)
    requires Progress(w, build, names, s, t, o) && forall x :: x in names ==> Reached(w, [root], x)
    ensures Progress(w, build, [root], s, t, o)
  {
    forall p | p in o ensures Reached(w, [root], p.file) { ReachedVia(w, root, names, p.file); }
    forall i | |s.files| <= i < |t.files| ensures Reached(w, [root], t.files[i]) {
      ReachedVia(w, root, names, t.files[i]);
    }
  }

  lemma {:induction false} ReachedVia(w: World, root: Path, names: seq<Path>, y: Path)
    requires Reached(w, names, y) && forall x :: x in names ==> Reached(w, [root], x)
    ensures Reached(w, [root], y)
  {
    var t :| Trail(w, t) && t[0] in names && t[|t| - 1] == y;
    AlongTrail(w, root, t);
  }

  lemma {:induction false} AlongTrail(w: World, root: Path, t: seq<Path>)
    requires Trail(w, t) && Reached(w, [root], t[0])
    ensures Reached(w, [root], t[|t| - 1])
    decreases |t|
  {
    if |t| > 1 {
      var most := t[..|t| - 1];
      assert forall i, j :: 0 <= i < |most| - 1 && j == i + 1 ==> Imports(w, t[i], t[j]) && most[i] == t[i];
      AlongTrail(w, root, most);
      assert most[|most| - 1] == t[|t| - 2] && Imports(w, t[|t| - 2], t[|t| - 1]);
      ReachedNext(w, [root], t[|t| - 2], t[|t| - 1]);
    }
  }

  lemma Standing(w: World, build: bool, starts: seq<Path>, s: Snap)
    requires Valid(w, build, s)
    ensures Progress(w, build, starts, s, s, [])
  {
    NoModules(w);
  }

  lemma ProgressTwice(w: World, build: bool, starts: seq<Path>, s: Snap, t: Snap, u: Snap, o: Text, o': Text)
    requires Progress(w, build, starts, s, t, o) && Progress(w, build, starts, t, u, o')
    ensures Progress(w, build, starts, s, u, o + o')
  {
    StepsTwice(w, build, starts, s, t, u);
    EmittedBoth(w, !Lossless(w, build), s.files, t.files, u.files, t.code[|s.code|..], o, u.code[|t.code|..], o');
  }

  /** What is compiled in one turn is put out, and nothing again. */
  lemma TurnPut(w: World, build: bool, file: Path, s: Snap, t: Snap, o: Text)
    requires Progress(w, build, [file], s, t, o) && FileText(w, file, o)
    ensures TurnText(w, file, s.files, o)
  {
    forall f | f in s.files && !Forced(w, f) ensures Only(o, f) == [] {
      assert EmittedOne(w, !Lossless(w, build), s.files, t.files, t.code[|s.code|..], o, f);
    }
  }

  lemma ProgressLost(w: World, build: bool, starts: seq<Path>, s: Snap, t: Snap, o: Text)
    requires Progress(w, build, starts, s, t, o) && !Lossless(w, build)
    ensures Progress(w, build, starts, s, t, [])
  {
  }

  lemma Inside(w: World, build: bool, root: Path, s: Snap)
    requires Valid(w, build, s) && root in s.files
    ensures ProgressIn(w, build, root, 0, s, s, [])
  {
    NoModules(w);
  }

  lemma ProgressOwn(w: World, build: bool, root: Path, n: nat, s: Snap, t: Snap, o: Text)
    requires ProgressIn(w, build, root, n, s, t, o)
    ensures ProgressIn(w, build, root, n + 1, s, t, o + [Piece(root, n)])
  {
    OwnPiece(w, !Lossless(w, build), root, n, s.files, t.files, t.code[|s.code|..], o);
    ReachedSelf(w, [root], root);
  }

  lemma ProgressPart(w: World, build: bool, root: Path, n: nat, s: Snap, t: Snap, u: Snap, o: Text, o': Text)
    requires ProgressIn(w, build, root, n, s, t, o) && Progress(w, build, [root], t, u, o')
    ensures ProgressIn(w, build, root, n, s, u, o + o')
  {
    StepsTwice(w, build, [root], s, t, u);
    ImportedPart(w, !Lossless(w, build), root, n, s.files, t.files, u.files, t.code[|s.code|..], o, u.code[|t.code|..], o');
  }

  /** A file noted as compiled, and then all of its text with all it asks for. */
  lemma ProgressFile(w: World, build: bool, root: Path, s: Snap, t: Snap, o: Text)
    requires root in w.files && (root !in s.files || Forced(w, root))
    requires ProgressIn(w, build, root, |w.files[root].calls| + 1, s.(files := s.files + [root]), t, o)
    requires SoundWorld(w) ==> Satisfied(w, build, t.files, root)
    ensures Progress(w, build, [root], s, t, o)
  {
    FileDone(w, !SoundWorld(w), root, s.files, t.files, t.code[|s.code|..], o);
    NotedFile(w, build, root, s, t);
  }

  lemma NotedFile(w: World, build: bool, root: Path, s: Snap, t: Snap)
    requires Steps(w, build, [root], s.(files := s.files + [root]), t)
    requires SoundWorld(w) ==> Satisfied(w, build, t.files, root)
    ensures Steps(w, build, [root], s, t)
  {
  }

  lemma ProgressFileLost(w: World, build: bool, root: Path, s: Snap, t: Snap)
    requires !Lossless(w, build) && ProgressIn(w, build, root, 0, s.(files := s.files + [root]), t, [])
    ensures Progress(w, build, [root], s, t, [])
  {
    FileLost(w, root, 0, s.files, t.files, t.code[|s.code|..], []);
    NotedFile(w, build, root, s, t);
  }

  lemma CodeGrows(a: Text, b: Text, o: Text)
    requires Extended(a, b)
    ensures Extended(a, b + o) && (b + o)[|a|..] == b[|a|..] + o
  {
  }

  /** The text of a module group goes to the end of the module code, and its modules count as compiled. */
  lemma ProgressAside(w: World, build: bool, starts: seq<Path>, s: Snap, t: Snap, paths: seq<Path>, o: Text, modules: seq<Name>)
    requires Progress(w, build, starts, s, t, o) && AreModuleFiles(w, paths) && GroupText(w, paths, o)
    requires Valid(w, build, t.(code := t.code + o, modules := modules))
    ensures Progress(w, build, starts, s, t.(code := t.code + o, modules := modules), [])
  {
    EmittedAside(w, !Lossless(w, build), s.files, t.files, t.code[|s.code|..], o);
    CodeGrows(s.code, t.code, o);
    OneModuleGroup(w, t.code[|s.code|..], paths, o);
  }

  function ModuleNames(calls: seq<ImportCall>): seq<Name> {
    if calls == [] then [] else ModuleNames(calls[..|calls| - 1]) + calls[|calls| - 1].modules
  }

  lemma {:induction false} ModuleNamesOf(calls: seq<ImportCall>, n: Name)
    ensures n in ModuleNames(calls) <==> exists call :: call in calls && n in call.modules
    decreases |calls|
  {
    if calls != [] {
      var most, last := calls[..|calls| - 1], calls[|calls| - 1];
      ModuleNamesOf(most, n);
      assert calls == most + [last];
    }
  }

  /** What the path arguments of the first k calls of a file ask for. */
  ghost predicate PathsMet(w: World, files: seq<Path>, calls: seq<ImportCall>) {
    forall call, arg, y :: call in calls && arg in call.paths && arg.files.Some? && y in arg.files.value && y in w.files ==> y in files
  }

  ghost predicate ArgsMet(w: World, files: seq<Path>, args: seq<PathArg>) {
    forall arg, y :: arg in args && arg.files.Some? && y in arg.files.value && y in w.files ==> y in files
  }

  ghost predicate ModulesMet(w: World, files: seq<Path>, names: seq<Name>) {
    forall n, y :: n in names && Serves(w, n, y) && y in w.files ==> y in files
  }

  ghost predicate CallsMet(w: World, build: bool, files: seq<Path>, calls: seq<ImportCall>, n: nat)
    requires n <= |calls|
  {
    (build ==> ModulesMet(w, files, ModuleNames(calls))) && PathsMet(w, files, calls[..n])
  }

  lemma CallsMetMore(w: World, build: bool, a: seq<Path>, b: seq<Path>, calls: seq<ImportCall>, n: nat)
    requires n < |calls| && CallsMet(w, build, a, calls, n) && Extended(a, b) && ArgsMet(w, b, calls[n].paths)
    ensures CallsMet(w, build, b, calls, n + 1)
  {
  }

  lemma AllMet(w: World, build: bool, files: seq<Path>, x: Path)
    requires x in w.files && CallsMet(w, build, files, w.files[x].calls, |w.files[x].calls|)
    ensures Satisfied(w, build, files, x)
  {
    assert w.files[x].calls[..|w.files[x].calls|] == w.files[x].calls;
    forall y | Requires(w, build, x, y) ensures y in files {
      if arg :| HasArg(w, x, arg) && arg.files.Some? && y in arg.files.value {
      } else {
        var call, n :| call in w.files[x].calls && n in call.modules && Serves(w, n, y);
        ModuleNamesOf(w.files[x].calls, n);
      }
    }
  }

  /** A finished module search and a compiled module group serve every name that was asked for. */
  lemma SearchServes(w: World, s: Snap, names: seq<Name>, modules: seq<Name>, paths: seq<Path>, files: seq<Path>)
    requires ValidWorld(w) && Backed(w, s) && Extended(s.files, files)
    requires Visited(w, s.modules, names, [], [], modules, paths)
    requires forall p :: p in paths && p in w.files ==> p in files
    ensures ModulesMet(w, files, names)
  {
  }

  lemma SearchReached(w: World, compiled: seq<Name>, root: Path, names: seq<Name>, modules: seq<Name>, paths: seq<Path>)
    requires Visited(w, compiled, names, [], [], modules, paths) && forall n :: n in names ==> Mentions(w, root, n)
    ensures forall p :: p in paths ==> Reached(w, [root], p)
  {
    forall p | p in paths ensures Reached(w, [root], p) {
      var i :| 0 <= i < |paths| && paths[i] == p;
      assert Wanted(w, compiled, names, modules[i]);
      WantedReached(w, compiled, root, names, modules[i]);
    }
  }

  lemma BackedMore(w: World, s: Snap, compiled: seq<Name>, modules: seq<Name>, paths: seq<Path>, all: seq<Name>)
    requires Backed(w, s) && Listed(w, compiled, modules, paths)
    requires forall p :: p in paths && p in w.files ==> p in s.files
    requires forall m :: m in all ==> m in s.modules || m in modules
    ensures Backed(w, s.(modules := all))
  {
  }

  lemma SearchFits(w: World, compiled: seq<Name>, root: Path, modules: seq<Name>, paths: seq<Path>)
    requires Buildable(w, true, root) && IsSearch(w, compiled, ModuleNames(w.files[root].calls), modules, paths)
    ensures GroupFits(w, paths) && (Lossless(w, true) ==> AllSound(w, paths))
    ensures forall y :: y in paths && y in w.files ==> Brings(w, true, root, y)
  {
    BuildableNow(w, true, root);
    SearchBrings(w, root, compiled, modules, paths);
  }

  lemma SearchBehind(w: World, build: bool, root: Path, s: Snap, t: Snap, modules: seq<Name>, paths: seq<Path>, code: Text)
    requires root in w.files && root in s.files && Valid(w, build, s)
    requires Visited(w, s.modules, ModuleNames(w.files[root].calls), [], [], modules, paths)
    requires Progress(w, build, paths, s, t, code)
    ensures Progress(w, build, [root], s, t, code)
    ensures code == [] ==> ProgressIn(w, build, root, 0, s, t, [])
  {
    var names := ModuleNames(w.files[root].calls);
    forall n | n in names ensures Mentions(w, root, n) { ModuleNamesOf(w.files[root].calls, n); }
    SearchReached(w, s.modules, root, names, modules, paths);
    ProgressBehind(w, build, root, paths, s, t, code);
    Inside(w, build, root, s);
    if code == [] { ProgressPart(w, build, root, 0, s, s, t, [], []); }
  }

  lemma SearchedFiles(w: World, compiled: seq<Name>, names: seq<Name>, modules: seq<Name>, paths: seq<Path>)
    requires Visited(w, compiled, names, [], [], modules, paths)
    ensures AreModuleFiles(w, paths)
  {
  }

  /** A module group is compiled and its modules are noted: all that the file's module names ask for is there. */
  lemma SearchDone(w: World, root: Path, s: Snap, t: Snap, modules: seq<Name>, paths: seq<Path>, code: Text, all: seq<Name>)
    requires ValidWorld(w) && root in w.files && root in s.files && Valid(w, true, s)
    requires Visited(w, s.modules, ModuleNames(w.files[root].calls), [], [], modules, paths)
    requires Progress(w, true, [root], s, t, code) && GroupText(w, paths, code) && forall p :: p in paths && p in w.files ==> p in t.files
    requires Distinct(all) && forall m :: m in all <==> m in t.modules || m in modules
    ensures InFile(w, true, root, s, t.(code := t.code + code, modules := all), [])
  {
    var u := t.(code := t.code + code, modules := all);
    BackedMore(w, t, s.modules, modules, paths, all);
    SearchedFiles(w, s.modules, ModuleNames(w.files[root].calls), modules, paths);
    ProgressAside(w, true, [root], s, t, paths, code, all);
    Inside(w, true, root, s);
    ProgressPart(w, true, root, 0, s, s, u, [], []);
    SearchServes(w, s, ModuleNames(w.files[root].calls), modules, paths, u.files);
  }

  ghost function Left(w: World, files: seq<Path>): set<Path> {
    w.files.Keys - Elements(files)
  }

  lemma LeftShrinks(w: World, a: seq<Path>, b: seq<Path>)
    requires Extended(a, b)
    ensures Left(w, b) <= Left(w, a)
  {
  }

  /** Noting a file either uses it up or follows a forced import. */
  lemma NotingShrinks(w: World, a: seq<Path>, f: Path, importer: Path)
    requires !Looped(w, importer) && f in w.files && (f in a ==> Forces(w, importer, f))
    ensures Left(w, a + [f]) < Left(w, a)
      || (Left(w, a + [f]) == Left(w, a) && Reach(ForcedGraph(w), f) < Reach(ForcedGraph(w), importer))
  {
    if f in a {
      assert Elements(a + [f]) == Elements(a);
      FewerInReach(ForcedGraph(w), importer, f);
    } else {
      assert f in Left(w, a) && f in Elements(a + [f]);
      LeftShrinks(w, a, a + [f]);
    }
  }

  function FilesOf(args: seq<PathArg>): seq<Path> {
    if args == [] then []
    else FilesOf(args[..|args| - 1]) + if args[|args| - 1].files.Some? then args[|args| - 1].files.value else []
  }

  lemma {:induction false} FilesOfArgs(args: seq<PathArg>, y: Path)
    ensures y in FilesOf(args) <==> exists arg :: arg in args && arg.files.Some? && y in arg.files.value
    decreases |args|
  {
    if args != [] {
      var most, last := args[..|args| - 1], args[|args| - 1];
      FilesOfArgs(most, y);
      assert args == most + [last];
    }
  }

  lemma OneArgOf(args: seq<PathArg>, i: nat)
    requires i < |args|
    ensures forall y :: y in FilesOf([args[i]]) ==> y in FilesOf(args)
  {
  }

  lemma ArgsMetMore(w: World, a: seq<Path>, b: seq<Path>, args: seq<PathArg>, n: nat)
    requires n < |args| && ArgsMet(w, a, args[..n]) && ArgsMet(w, b, [args[n]]) && Extended(a, b)
    ensures ArgsMet(w, b, args[..n + 1])
  {
  }

  lemma PastArg(w: World, build: bool, args: seq<PathArg>, i: nat, s: Snap, t: Snap, u: Snap, before: Text, included: Text)
    requires i < |args| && Progress(w, build, FilesOf(args), s, t, before)
    requires Progress(w, build, FilesOf([args[i]]), t, u, included)
    requires SoundWorld(w) ==> ArgsMet(w, t.files, args[..i]) && ArgsMet(w, u.files, [args[i]])
    ensures Progress(w, build, FilesOf(args), s, u, before + included)
    ensures SoundWorld(w) ==> ArgsMet(w, u.files, args[..i + 1])
  {
    if SoundWorld(w) { ArgsMetMore(w, t.files, u.files, args, i); }
    OneArgOf(args, i);
    ProgressFrom(w, build, FilesOf([args[i]]), FilesOf(args), t, u, included);
    ProgressTwice(w, build, FilesOf(args), s, t, u, before, included);
  }

  ghost predicate CallsText(w: World, calls: seq<ImportCall>, parts: seq<Text>)
    requires |parts| <= |calls|
  {
    forall k :: 0 <= k < |parts| ==> CallText(w, calls[k].paths, parts[k])
  }

  /** Before the next call of a file since s: what the text so far holds and what the files so far meet. */
  ghost predicate InFile(w: World, build: bool, root: Path, s: Snap, t: Snap, parts: seq<Text>)
    requires root in w.files && |parts| <= |w.files[root].calls|
  {
    && ProgressIn(w, build, root, |parts|, s, t, Woven(root, parts))
    && (SoundWorld(w) ==> CallsMet(w, build, t.files, w.files[root].calls, |parts|))
    && CallsText(w, w.files[root].calls, parts)
  }

  lemma PathsReached(w: World, root: Path, i: nat)
    requires root in w.files && i < |w.files[root].calls|
    ensures forall y :: y in FilesOf(w.files[root].calls[i].paths) ==> Reached(w, [root], y)
  {
    var call := w.files[root].calls[i];
    forall y | y in FilesOf(call.paths) ensures Reached(w, [root], y) {
      FilesOfArgs(call.paths, y);
      var arg :| arg in call.paths && arg.files.Some? && y in arg.files.value;
      assert HasArg(w, root, arg) && Imports(w, root, y);
      ReachedSelf(w, [y], y);
      ReachedBehind(w, root, [y], y);
    }
  }

  lemma PastCall(w: World, build: bool, root: Path, s: Snap, t: Snap, u: Snap, parts: seq<Text>, included: Text)
    requires root in w.files && |parts| < |w.files[root].calls| && InFile(w, build, root, s, t, parts)
    requires Progress(w, build, FilesOf(w.files[root].calls[|parts|].paths), t, u, included)
    requires SoundWorld(w) ==> ArgsMet(w, u.files, w.files[root].calls[|parts|].paths)
    requires CallText(w, w.files[root].calls[|parts|].paths, included)
    ensures InFile(w, build, root, s, u, parts + [included])
    ensures Woven(root, parts + [included]) == Woven(root, parts) + [Piece(root, |parts|)] + included
  {
    var i, before := |parts|, Woven(root, parts);
    assert (parts + [included])[..i] == parts;
    PathsReached(w, root, i);
    ProgressBehind(w, build, root, FilesOf(w.files[root].calls[i].paths), t, u, included);
    ProgressOwn(w, build, root, i, s, t, before);
    ProgressPart(w, build, root, i + 1, s, t, u, before + [Piece(root, i)], included);
    if SoundWorld(w) { CallsMetMore(w, build, t.files, u.files, w.files[root].calls, i); }
  }

  lemma PastCalls(w: World, build: bool, root: Path, s: Snap, t: Snap, parts: seq<Text>)
    requires root in w.files && |parts| == |w.files[root].calls| && InFile(w, build, root, s, t, parts)
    ensures ProgressIn(w, build, root, |parts| + 1, s, t, Woven(root, parts) + [Piece(root, |parts|)])
    ensures FileText(w, root, Woven(root, parts) + [Piece(root, |parts|)])
    ensures SoundWorld(w) ==> Satisfied(w, build, t.files, root)
  {
    ProgressOwn(w, build, root, |parts|, s, t, Woven(root, parts));
    WovenHolds(root, parts);
    assert IsFileText(w, root, parts, Woven(root, parts) + [Piece(root, |parts|)]);
    if SoundWorld(w) { AllMet(w, build, t.files, root); }
  }

  predicate FirstIn(order: seq<Path>, n: nat, files: seq<Path>)
    requires n <= |order|
  {
    forall k :: 0 <= k < n ==> order[k] in files
  }

  lemma OneMoreIn(order: seq<Path>, n: nat, a: seq<Path>, b: seq<Path>)
    requires n < |order| && FirstIn(order, n, a) && Extended(a, b) && order[n] in b
    ensures FirstIn(order, n + 1, b)
  {
  }

  lemma AllIn(w: World, names: seq<Path>, order: seq<Path>, files: seq<Path>)
    requires Elements(order) == Readable(w, names) && FirstIn(order, |order|, files)
    ensures forall y :: y in names && y in w.files ==> y in files
  {
    forall y | y in names && y in w.files ensures y in files {
      assert y in Readable(w, names) && y in Elements(order);
      var k :| 0 <= k < |order| && order[k] == y;
    }
  }

  lemma StillBacked(w: World, build: bool, s: Snap, f: Path)
    requires Valid(w, build, s)
    ensures Valid(w, build, s.(files := s.files + [f]))
  {
  }

  /** What a whole build puts out of each file. */
  lemma OnceOrNever(w: World, lost: bool, files: seq<Path>, m: Text, o: Text, f: Path)
    requires Emitted(w, lost, [], files, m, o) && !Forced(w, f)
    ensures Only(m + o, f) == [] || (f in files && Only(m + o, f) == Whole(w, f))
    ensures !lost && f in files ==> Only(m + o, f) == Whole(w, f)
  {
    OnlyPlus(m, o, f);
    assert EmittedOne(w, lost, [], files, m, o, f);
    OneOrNone(Only(m, f), Only(o, f), Whole(w, f));
  }

  lemma OneOrNone(a: Text, b: Text, whole: Text)
    ensures a == whole && b == [] ==> a + b == whole
    ensures a == [] && b == whole ==> a + b == whole
    ensures a == [] && b == [] ==> a + b == []
  {
  }

  // ---------- The order of a group ----------

  /** x is compiled before y is compiled for the first time. */
  predicate Precedes(files: seq<Path>, x: Path, y: Path) {
    exists p :: 0 <= p < |files| && files[p] == x && y !in files[..p] && x != y
  }

  /** Some file of the first n, none behind the k-th, leads to y by its imports. */
  ghost predicate LedTo(w: World, order: seq<Path>, n: nat, k: nat, y: Path) {
    exists m :: 0 <= m < n && m <= k && m < |order| && Reached(w, [order[m]], y)
  }

  /** After n turns: of two files in the order the first is compiled first, unless it or a file before it imports
      the other, directly or not. */
  ghost predicate InTurn(w: World, order: seq<Path>, n: nat, before: seq<Path>, files: seq<Path>) {
    forall k: nat, j: nat :: k < j < |order| && order[j] in files && order[j] !in before ==>
      Precedes(files, order[k], order[j]) || LedTo(w, order, n, k, order[j])
  }

  lemma PrecedesStays(a: seq<Path>, b: seq<Path>, x: Path, y: Path)
    requires Extended(a, b) && Precedes(a, x, y)
    ensures Precedes(b, x, y)
  {
  }

  lemma PrecedesNew(a: seq<Path>, b: seq<Path>, x: Path, y: Path)
    requires Extended(a, b) && x in a && y !in a
    ensures Precedes(b, x, y)
  {
  }

  lemma TurnOfOne(w: World, order: seq<Path>, n: nat, before: seq<Path>, a: seq<Path>, b: seq<Path>, k: nat, j: nat)
    requires n < |order| && InTurn(w, order, n, before, a) && FirstIn(order, n, a) && Extended(a, b)
    requires ReachedSince(w, [order[n]], b, |a|) && k < j < |order| && order[j] in b && order[j] !in before
    ensures Precedes(b, order[k], order[j]) || LedTo(w, order, n + 1, k, order[j])
  {
    if order[j] in a {
      if Precedes(a, order[k], order[j]) {
        PrecedesStays(a, b, order[k], order[j]);
      } else {
        var m :| 0 <= m < n && m <= k && m < |order| && Reached(w, [order[m]], order[j]);
      }
    } else if k < n {
      PrecedesNew(a, b, order[k], order[j]);
    } else {
      var i :| 0 <= i < |b| && b[i] == order[j];
      forall q | 0 <= q < |a| ensures b[q] == a[q] { assert b[..|a|][q] == b[q]; }
      assert Reached(w, [order[n]], order[j]);
    }
  }

  /** One more turn: what is newly compiled in it is led to by its file. */
  lemma TurnTaken(w: World, order: seq<Path>, n: nat, before: seq<Path>, a: seq<Path>, b: seq<Path>)
    requires n < |order| && InTurn(w, order, n, before, a) && FirstIn(order, n, a) && Extended(a, b)
    requires ReachedSince(w, [order[n]], b, |a|)
    ensures InTurn(w, order, n + 1, before, b)
  {
    forall k: nat, j: nat | k < j < |order| && order[j] in b && order[j] !in before
      ensures Precedes(b, order[k], order[j]) || LedTo(w, order, n + 1, k, order[j])
    {
      TurnOfOne(w, order, n, before, a, b, k, j);
    }
  }

  /** In the order of the group: a class is compiled before a class that extends it, unless imports lead to the latter
      from the former or from a file whose turn comes still before. */
  ghost predicate ParentsCompiledFirst(w: World, names: seq<Path>, before: seq<Path>, files: seq<Path>) {
    exists order :: IsOrder(w, names, order) && forall x, y :: Extends(w, names, x, y) && y !in before ==>
      Precedes(files, x, y) || LedToFrom(w, order, x, y)
  }

  lemma TurnsDone(w: World, names: seq<Path>, order: seq<Path>, before: seq<Path>, files: seq<Path>)
    requires IsOrder(w, names, order) && FirstIn(order, |order|, files) && InTurn(w, order, |order|, before, files)
    ensures ParentsCompiledFirst(w, names, before, files)
  {
    forall x, y | Extends(w, names, x, y) && y !in before ensures Precedes(files, x, y) || LedToFrom(w, order, x, y) {
      ExtendedReadable(w, names, x, y);
      assert x in Elements(order) && y in Elements(order);
      var i: nat :| i < |order| && order[i] == x;
      var j: nat :| j < |order| && order[j] == y;
      if !Precedes(files, x, y) {
        assert LedTo(w, order, |order|, i, order[j]);
      }
    }
  }
}
