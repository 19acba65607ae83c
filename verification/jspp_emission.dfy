/** The text a build puts out: nested file groups, module code collected on the side, and the list of files that
    are compiled already. The text of a file is cut into pieces by its import calls; what an import brings in is
    written between them. */
module Emission {
  import opened Common
  import opened Sources
  import opened FileOrder
  import opened FileGroup
  import opened ModuleScan

  datatype Piece = Piece(file: Path, index: nat)
  type Text = seq<Piece>

  /** The first n pieces of a file. */
  function Pieces(f: Path, n: nat): Text {
    if n == 0 then [] else Pieces(f, n - 1) + [Piece(f, n - 1)]
  }

  function Whole(w: World, f: Path): Text {
    if f in w.files then Pieces(f, |w.files[f].calls| + 1) else []
  }

  /** The pieces of one file within a text. */
  function Only(t: Text, f: Path): Text {
    if t == [] then []
    else Only(t[..|t| - 1], f) + if t[|t| - 1].file == f then [t[|t| - 1]] else []
  }

  lemma {:induction false} OnlyPlus(a: Text, b: Text, f: Path)
    ensures Only(a + b, f) == Only(a, f) + Only(b, f)
    decreases |b|
  {
    if b == [] {
      assert a + b == a;
    } else {
      var most := b[..|b| - 1];
      OnlyPlus(a, most, f);
      assert (a + b)[..|a + b| - 1] == a + most;
    }
  }

  // ---------- Forced imports ----------

  predicate HasArg(w: World, x: Path, arg: PathArg) {
    x in w.files && exists call :: call in w.files[x].calls && arg in call.paths
  }

  /** A group with an unsound file is given up before anything is compiled, so its import forces nothing. */
  ghost predicate Forces(w: World, x: Path, y: Path) {
    exists arg :: HasArg(w, x, arg) && arg.force && arg.files.Some? && AllSound(w, arg.files.value) && y in arg.files.value
  }

  /** A file that some import compiles by force. */
  ghost predicate Forced(w: World, y: Path) {
    exists x :: Forces(w, x, y)
  }

  ghost function Listing(s: set<Path>): (r: seq<Path>)
    ensures Distinct(r) && forall x :: x in r <==> x in s
    decreases s
  {
    if s == {} then [] else
      var x :| x in s;
      [x] + Listing(s - {x})
  }

  ghost function ForcedBy(w: World, x: Path): set<Path> {
    set y | y in w.files.Keys && Forces(w, x, y)
  }

  /** Which readable files a file imports by force. */
  ghost function ForcedGraph(w: World): (g: Graph)
    ensures WellFormed(g) && forall x, y :: Edge(g, x, y) <==> x in w.files && y in w.files && Forces(w, x, y)
  {
    map x | x in w.files :: Listing(ForcedBy(w, x))
  }

  // ---------- What a step of a build puts out ----------

  /** The fields of a compiler that a build changes. */
  datatype Snap = Snap(files: seq<Path>, modules: seq<Name>, code: Text)

  /** One file that is never forced: newly compiled, all of its pieces are in the module code m or all are in the
      text o, in order (or they are lost, where that is allowed); otherwise none is. */
  predicate EmittedOne(w: World, lost: bool, before: seq<Path>, after: seq<Path>, m: Text, o: Text, f: Path) {
    if f in after && f !in before then
      || (Only(m, f) == Whole(w, f) && Only(o, f) == [])
      || (Only(m, f) == [] && Only(o, f) == Whole(w, f))
      || (lost && Only(m, f) == [] && Only(o, f) == [])
    else Only(m, f) == [] && Only(o, f) == []
  }

  ghost predicate Emitted(w: World, lost: bool, before: seq<Path>, after: seq<Path>, m: Text, o: Text) {
    Extended(before, after) && forall f :: !Forced(w, f) ==> EmittedOne(w, lost, before, after, m, o, f)
  }

  /** Inside the text of a file that is noted as compiled already: its own first n pieces, and the rest. */
  ghost predicate EmittedIn(w: World, lost: bool, root: Path, n: nat, before: seq<Path>, after: seq<Path>, m: Text, o: Text) {
    && Extended(before, after) && root in before
    && (!Forced(w, root) ==> Only(m, root) == [] && Only(o, root) == Pieces(root, n))
    && forall f :: !Forced(w, f) && f != root ==> EmittedOne(w, lost, before, after, m, o, f)
  }

  lemma ExtendedKeeps<T(!new)>(a: seq<T>, b: seq<T>)
    requires Extended(a, b)
    ensures forall x :: x in a ==> x in b
  {
  }

  lemma ExtendedTwice<T(!new)>(a: seq<T>, b: seq<T>, c: seq<T>)
    requires Extended(a, b) && Extended(b, c)
    ensures Extended(a, c)
  {
  }

  lemma EmittedBoth(w: World, lost: bool, a: seq<Path>, b: seq<Path>, c: seq<Path>, m: Text, o: Text, m': Text, o': Text)
    requires Emitted(w, lost, a, b, m, o) && Emitted(w, lost, b, c, m', o')
    ensures Emitted(w, lost, a, c, m + m', o + o')
  {
    ExtendedKeeps(a, b);
    ExtendedKeeps(b, c);
    ExtendedTwice(a, b, c);
    forall f | !Forced(w, f) ensures EmittedOne(w, lost, a, c, m + m', o + o', f) {
      OnlyPlus(m, m', f);
      OnlyPlus(o, o', f);
      assert EmittedOne(w, lost, a, b, m, o, f) && EmittedOne(w, lost, b, c, m', o', f);
    }
  }

  /** A text moved to the end of the module code. */
  lemma EmittedAside(w: World, lost: bool, a: seq<Path>, b: seq<Path>, m: Text, o: Text)
    requires Emitted(w, lost, a, b, m, o)
    ensures Emitted(w, lost, a, b, m + o, [])
  {
    forall f | !Forced(w, f) ensures EmittedOne(w, lost, a, b, m + o, [], f) {
      OnlyPlus(m, o, f);
      assert EmittedOne(w, lost, a, b, m, o, f);
    }
  }

  lemma OwnPiece(w: World, lost: bool, root: Path, n: nat, a: seq<Path>, b: seq<Path>, m: Text, o: Text)
    requires EmittedIn(w, lost, root, n, a, b, m, o)
    ensures EmittedIn(w, lost, root, n + 1, a, b, m, o + [Piece(root, n)])
  {
  }

  lemma ImportedPart(w: World, lost: bool, root: Path, n: nat, a: seq<Path>, b: seq<Path>, c: seq<Path>, m: Text, o: Text, m': Text, o': Text)
    requires EmittedIn(w, lost, root, n, a, b, m, o) && Emitted(w, lost, b, c, m', o')
    ensures EmittedIn(w, lost, root, n, a, c, m + m', o + o')
  {
    ExtendedKeeps(a, b);
    ExtendedKeeps(b, c);
    ExtendedTwice(a, b, c);
    forall f ensures Only(m + m', f) == Only(m, f) + Only(m', f) && Only(o + o', f) == Only(o, f) + Only(o', f) {
      OnlyPlus(m, m', f);
      OnlyPlus(o, o', f);
    }
    if !Forced(w, root) { assert EmittedOne(w, lost, b, c, m', o', root); }
    forall f | !Forced(w, f) && f != root ensures EmittedOne(w, lost, a, c, m + m', o + o', f) {
      assert EmittedOne(w, lost, a, b, m, o, f) && EmittedOne(w, lost, b, c, m', o', f);
    }
  }

  /** A file with all its pieces is a newly compiled file. */
  lemma FileDone(w: World, lost: bool, root: Path, a: seq<Path>, b: seq<Path>, m: Text, o: Text)
    requires root in w.files && (root !in a || Forced(w, root))
    requires EmittedIn(w, lost, root, |w.files[root].calls| + 1, a + [root], b, m, o)
    ensures Emitted(w, lost, a, b, m, o)
  {
  }

  /** The same, its text thrown away. */
  lemma FileLost(w: World, root: Path, n: nat, a: seq<Path>, b: seq<Path>, m: Text, o: Text)
    requires EmittedIn(w, true, root, n, a + [root], b, m, o)
    ensures Emitted(w, true, a, b, m, [])
  {
  }
}
