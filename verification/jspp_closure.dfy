/** Which files a build compiles: all that the compiled ones ask for, and none that nothing asks for. */
module Closure {
  import opened Common
  import opened Sources
  import opened ModuleScan
  import opened Emission

  // ---------- No more than is asked for ----------

  /** A module name anywhere in a file: in its compiled import calls or in its raw text. */
  predicate Mentions(w: World, x: Path, n: Name) {
    x in w.files && (n in w.files[x].raw || exists call :: call in w.files[x].calls && n in call.modules)
  }

  ghost predicate Imports(w: World, x: Path, y: Path) {
    || (exists arg :: HasArg(w, x, arg) && arg.files.Some? && y in arg.files.value)
    || (exists n :: Mentions(w, x, n) && Resolved(w, n) in w.modules && y == w.modules[Resolved(w, n)])
  }

  ghost predicate Trail(w: World, t: seq<Path>) {
    t != [] && forall i, j :: 0 <= i < |t| - 1 && j == i + 1 ==> Imports(w, t[i], t[j])
  }

  /** Imports lead from one of the starting files to y. */
  ghost predicate Reached(w: World, starts: seq<Path>, y: Path) {
    exists t :: Trail(w, t) && t[0] in starts && t[|t| - 1] == y
  }

  ghost predicate ReachedSince(w: World, starts: seq<Path>, files: seq<Path>, k: nat) {
    forall i :: k <= i < |files| ==> Reached(w, starts, files[i])
  }

  lemma ReachedSelf(w: World, starts: seq<Path>, y: Path)
    requires y in starts
    ensures Reached(w, starts, y)
  {
    assert Trail(w, [y]) && [y][0] in starts;
  }

  /** What an import of x leads to, x leads to. */
  lemma ReachedBehind(w: World, x: Path, names: seq<Path>, y: Path)
    requires Reached(w, names, y) && forall n :: n in names ==> Imports(w, x, n)
    ensures Reached(w, [x], y)
  {
    var t :| Trail(w, t) && t[0] in names && t[|t| - 1] == y;
    var u := [x] + t;
    forall i, j | 0 <= i < |u| - 1 && j == i + 1 ensures Imports(w, u[i], u[j]) {
      if i > 0 { assert Imports(w, t[i - 1], t[i]); }
    }
    assert Trail(w, u) && u[0] in [x];
  }

  lemma ReachedNext(w: World, starts: seq<Path>, z: Path, y: Path)
    requires Reached(w, starts, z) && Imports(w, z, y)
    ensures Reached(w, starts, y)
  {
    var t :| Trail(w, t) && t[0] in starts && t[|t| - 1] == z;
    var u := t + [y];
    forall i, j | 0 <= i < |u| - 1 && j == i + 1 ensures Imports(w, u[i], u[j]) {
      if i < |t| - 1 { assert Imports(w, t[i], t[i + 1]); }
    }
    assert Trail(w, u) && u[0] in starts;
  }

  lemma FollowsImports(w: World, a: Name, b: Name)
    requires Follows(w, a, b) && b in w.modules
    ensures Imports(w, w.modules[a], w.modules[b])
  {
  }

  lemma {:induction false} ChainReached(w: World, compiled: seq<Name>, x: Path, names: seq<Name>, c: seq<Name>)
    requires Chain(w, compiled, c) && FromNames(w, names, c[0]) && forall n :: n in names ==> Mentions(w, x, n)
    ensures Reached(w, [x], w.modules[c[|c| - 1]])
    decreases |c|
  {
    var y := w.modules[c[|c| - 1]];
    if |c| == 1 {
      var n :| n in names && c[0] == Resolved(w, n);
      assert Mentions(w, x, n) && Imports(w, x, y);
      assert Trail(w, [x, y]) && [x, y][0] in [x];
    } else {
      ChainMost(w, compiled, c);
      ChainReached(w, compiled, x, names, c[..|c| - 1]);
      FollowsImports(w, c[|c| - 2], c[|c| - 1]);
      ReachedNext(w, [x], w.modules[c[|c| - 2]], y);
    }
  }

  /** The files that a module search lists are reached from the file that asked. */
  lemma WantedReached(w: World, compiled: seq<Name>, x: Path, names: seq<Name>, m: Name)
    requires Wanted(w, compiled, names, m) && forall n :: n in names ==> Mentions(w, x, n)
    ensures Reached(w, [x], w.modules[m])
  {
    var c :| Chain(w, compiled, c) && FromNames(w, names, c[0]) && c[|c| - 1] == m;
    ChainReached(w, compiled, x, names, c);
  }

  // ---------- No less ----------

  /** What a file asks for: the files of its path arguments, and (when modules are built) the files of its modules. */
  ghost predicate Requires(w: World, build: bool, x: Path, y: Path) {
    x in w.files && y in w.files
    && ((exists arg :: HasArg(w, x, arg) && arg.files.Some? && y in arg.files.value)
     || (build && exists call, n :: call in w.files[x].calls && n in call.modules && Serves(w, n, y)))
  }

  /** Importing the name n brings in the file y. */
  predicate Serves(w: World, n: Name, y: Path) {
    var m := Resolved(w, n);
    w.bound && m !in w.ignored && m in w.modules && y == w.modules[m]
  }

  ghost predicate Satisfied(w: World, build: bool, files: seq<Path>, x: Path) {
    forall y :: Requires(w, build, x, y) ==> y in files
  }

  ghost predicate ClosedSince(w: World, build: bool, files: seq<Path>, k: nat) {
    forall i :: k <= i < |files| ==> Satisfied(w, build, files, files[i])
  }

  /** The file of a module that counts as compiled is compiled, if it can be read at all. */
  predicate Backed(w: World, s: Snap) {
    forall m :: m in s.modules && m in w.modules && w.modules[m] in w.files ==> w.modules[m] in s.files
  }

  ghost predicate RequiredTrail(w: World, build: bool, t: seq<Path>) {
    t != [] && forall i, j :: 0 <= i < |t| - 1 && j == i + 1 ==> Requires(w, build, t[i], t[j])
  }

  /** A closed list of compiled files holds whatever the first of them leads to. */
  lemma {:induction false} ClosedHolds(w: World, build: bool, files: seq<Path>, t: seq<Path>)
    requires ClosedSince(w, build, files, 0) && RequiredTrail(w, build, t) && t[0] in files
    ensures t[|t| - 1] in files
    decreases |t|
  {
    if |t| > 1 {
      var most := t[..|t| - 1];
      assert forall i, j :: 0 <= i < |most| - 1 && j == i + 1 ==> Requires(w, build, t[i], t[j]) && most[i] == t[i];
      ClosedHolds(w, build, files, most);
      assert Requires(w, build, t[|t| - 2], t[|t| - 1]);
      var k :| 0 <= k < |files| && files[k] == t[|t| - 2];
      assert Satisfied(w, build, files, files[k]);
    }
  }
}
