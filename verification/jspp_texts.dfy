/** The shape of the text a build puts out: which file's pieces stand where. */
module LinkTexts {
  import opened Common
  import opened Sources
  import opened FileOrder
  import opened FileGroup
  import opened ModuleScan
  import opened Emission
  import opened Closure

  function Concat(parts: seq<Text>): Text {
    if parts == [] then [] else Concat(parts[..|parts| - 1]) + parts[|parts| - 1]
  }

  lemma ConcatMore(parts: seq<Text>, part: Text)
    ensures Concat(parts + [part]) == Concat(parts) + part
  {
    assert (parts + [part])[..|parts|] == parts;
  }

  lemma {:induction false} ConcatPlus(a: seq<Text>, b: seq<Text>)
    ensures Concat(a + b) == Concat(a) + Concat(b)
    decreases |b|
  {
    if b == [] {
      assert a + b == a;
    } else {
      var most, last := b[..|b| - 1], b[|b| - 1];
      ConcatPlus(a, most);
      assert a + b == (a + most) + [last];
      ConcatMore(a + most, last);
      ConcatMore(most, last);
      assert b == most + [last];
      assert Concat(a) + (Concat(most) + last) == Concat(a) + Concat(most) + last;
    }
  }

  /** Every piece of a text is of a file that the starting files lead to. */
  ghost predicate Comes(w: World, starts: seq<Path>, t: Text) {
    forall p :: p in t ==> Reached(w, starts, p.file)
  }

  /** A file's first pieces, each with what its call brings in behind it. */
  function Woven(root: Path, parts: seq<Text>): Text {
    if parts == [] then []
    else Woven(root, parts[..|parts| - 1]) + [Piece(root, |parts| - 1)] + parts[|parts| - 1]
  }

  lemma {:induction false} WovenHolds(root: Path, parts: seq<Text>)
    ensures NoLonger(parts, |Woven(root, parts)|)
    decreases |parts|
  {
    if parts != [] { WovenHolds(root, parts[..|parts| - 1]); }
  }

  lemma {:induction false} ConcatHolds(parts: seq<Text>)
    ensures NoLonger(parts, |Concat(parts)|)
    decreases |parts|
  {
    if parts != [] { ConcatHolds(parts[..|parts| - 1]); }
  }

  /** What stands at call i stands between the file's own pieces i and i + 1. */
  lemma {:induction false} WovenBetween(root: Path, parts: seq<Text>, i: nat) returns (a: Text, b: Text)
    requires i < |parts|
    ensures Woven(root, parts) + [Piece(root, |parts|)] == a + [Piece(root, i)] + parts[i] + [Piece(root, i + 1)] + b
    decreases |parts|
  {
    var n := |parts| - 1;
    var most, t := parts[..n], Woven(root, parts) + [Piece(root, |parts|)];
    if i == n {
      a, b := Woven(root, most), [];
    } else {
      a, b := WovenBetween(root, most, i);
      b := b + parts[n] + [Piece(root, n + 1)];
    }
  }

  // ---------- Texts ----------

  predicate NoLonger(parts: seq<Text>, n: nat) {
    forall k :: 0 <= k < |parts| ==> |parts[k]| <= n
  }

  /** A file's text with every import written in its place. */
  ghost predicate FileText(w: World, root: Path, t: Text)
    decreases |t|, 2
  {
    root in w.files && t != [] && exists parts :: IsFileText(w, root, parts, t)
  }

  ghost predicate IsFileText(w: World, root: Path, parts: seq<Text>, t: Text)
    requires root in w.files && t != []
    decreases |t|, 1
  {
    && |parts| == |w.files[root].calls| && NoLonger(parts, |t| - 1)
    && (forall i :: 0 <= i < |parts| ==> CallText(w, w.files[root].calls[i].paths, parts[i]))
    && t == Woven(root, parts) + [Piece(root, |parts|)]
  }

  /** What the path arguments of a call bring in, one behind the other; what fails brings in nothing. */
  ghost predicate CallText(w: World, args: seq<PathArg>, t: Text)
    decreases |t|, 6
  {
    exists parts :: IsCallText(w, args, parts, t)
  }

  ghost predicate IsCallText(w: World, args: seq<PathArg>, parts: seq<Text>, t: Text)
    decreases |t|, 5
  {
    && |parts| == |args| && NoLonger(parts, |t|) && t == Concat(parts)
    && forall j :: 0 <= j < |parts| ==> parts[j] == [] || (args[j].files.Some? && GroupText(w, args[j].files.value, parts[j]))
  }

  /** A group's files, in an order that has a class in front of those that extend it. */
  ghost predicate GroupText(w: World, names: seq<Path>, t: Text)
    decreases |t|, 4
  {
    exists order, parts :: IsOrder(w, names, order) && IsGroupText(w, order, parts, t)
  }

  /** The files of the order in their turns: each with its text, or with nothing where it is not to be compiled again. */
  ghost predicate IsGroupText(w: World, order: seq<Path>, parts: seq<Text>, t: Text)
    decreases |t|, 3
  {
    && |parts| == |order| && NoLonger(parts, |t|) && t == Concat(parts)
    && (forall k :: 0 <= k < |parts| ==> parts[k] == [] || FileText(w, order[k], parts[k]))
    && (forall k :: 0 <= k < |parts| ==> Comes(w, [order[k]], parts[k]))
    && forall k, m :: 0 <= k < m < |parts| && !Forced(w, order[k]) ==> Only(parts[m], order[k]) == []
  }

  // ---------- One part more ----------

  /** What one turn of a group puts out, with these files noted before it. */
  ghost predicate TurnText(w: World, file: Path, noted: seq<Path>, part: Text) {
    && (part == [] || FileText(w, file, part)) && Comes(w, [file], part)
    && forall f :: f in noted && !Forced(w, f) ==> Only(part, f) == []
  }

  lemma GroupTextGrows(w: World, order: seq<Path>, i: nat, parts: seq<Text>, t: Text, noted: seq<Path>, part: Text)
    requires i < |order| && IsGroupText(w, order[..i], parts, t) && TurnText(w, order[i], noted, part)
    requires forall k :: 0 <= k < i ==> order[k] in noted
    ensures IsGroupText(w, order[..i + 1], parts + [part], t + part)
  {
    ConcatMore(parts, part);
    ConcatHolds(parts + [part]);
    forall k | 0 <= k < i ensures order[..i][k] == order[k] && (parts[k] == [] || FileText(w, order[k], parts[k])) && Comes(w, [order[k]], parts[k]) {
    }
    forall k, m | 0 <= k < m < i && !Forced(w, order[k]) ensures Only(parts[m], order[k]) == [] {
      assert order[..i][k] == order[k];
    }
  }

  lemma CallTextGrows(w: World, args: seq<PathArg>, i: nat, parts: seq<Text>, t: Text, part: Text)
    requires i < |args| && IsCallText(w, args[..i], parts, t)
    requires part == [] || (args[i].files.Some? && GroupText(w, args[i].files.value, part))
    ensures IsCallText(w, args[..i + 1], parts + [part], t + part)
  {
    ConcatMore(parts, part);
    ConcatHolds(parts + [part]);
    forall k | 0 <= k < i ensures parts[k] == [] || (args[k].files.Some? && GroupText(w, args[k].files.value, parts[k])) {
      assert args[..i][k] == args[k];
    }
  }

  // ---------- The order of classes in the text ----------

  /** Every piece of x stands before every piece of y. */
  predicate Before(t: Text, x: Path, y: Path) {
    forall i, j :: 0 <= i < |t| && 0 <= j < |t| && t[i].file == x && t[j].file == y ==> i < j
  }

  /** Imports lead to y from x or from a file before x in the order. */
  ghost predicate LedToFrom(w: World, order: seq<Path>, x: Path, y: Path) {
    exists m, k :: 0 <= m <= k < |order| && order[k] == x && Reached(w, [order[m]], y)
  }

  /** In some order of the group: the text of a class stands in front of a class that extends it, unless imports lead to
      the latter from the former or from a file whose turn comes still before. */
  ghost predicate ParentsPutFirst(w: World, names: seq<Path>, t: Text) {
    exists order :: IsOrder(w, names, order) && forall x, y :: Extends(w, names, x, y) && !Forced(w, x) ==>
      Before(t, x, y) || LedToFrom(w, order, x, y)
  }

  predicate NoPiece(t: Text, f: Path) {
    forall i :: 0 <= i < |t| ==> t[i].file != f
  }

  lemma {:induction false} OnlyNone(t: Text, f: Path)
    requires Only(t, f) == []
    ensures NoPiece(t, f)
    decreases |t|
  {
    if t != [] { OnlyNone(t[..|t| - 1], f); }
  }

  lemma {:induction false} NoneOf(parts: seq<Text>, f: Path)
    requires forall k :: 0 <= k < |parts| ==> NoPiece(parts[k], f)
    ensures NoPiece(Concat(parts), f)
    decreases |parts|
  {
    if parts != [] { NoneOf(parts[..|parts| - 1], f); }
  }

  lemma BeforePlus(a: Text, b: Text, x: Path, y: Path)
    requires NoPiece(a, y) && NoPiece(b, x)
    ensures Before(a + b, x, y)
  {
  }

  lemma NoneSoFar(w: World, order: seq<Path>, parts: seq<Text>, t: Text, n: nat, y: Path)
    requires IsGroupText(w, order, parts, t) && n <= |order|
    requires forall m :: 0 <= m < n ==> !Reached(w, [order[m]], y)
    ensures NoPiece(Concat(parts[..n]), y)
  {
    forall m | 0 <= m < n ensures NoPiece(parts[..n][m], y) { assert Comes(w, [order[m]], parts[m]); }
    NoneOf(parts[..n], y);
  }

  lemma NoneBehind(w: World, order: seq<Path>, parts: seq<Text>, t: Text, i: nat)
    requires IsGroupText(w, order, parts, t) && i < |order| && !Forced(w, order[i])
    ensures NoPiece(Concat(parts[i + 1..]), order[i])
  {
    var b := parts[i + 1..];
    forall m | 0 <= m < |b| ensures NoPiece(b[m], order[i]) { OnlyNone(parts[i + 1 + m], order[i]); }
    NoneOf(b, order[i]);
  }

  /** All of x is put out by the end of its turn, and all of y behind it. */
  lemma TurnsPutFirst(w: World, order: seq<Path>, parts: seq<Text>, t: Text, i: nat, y: Path)
    requires IsGroupText(w, order, parts, t) && i < |order| && !Forced(w, order[i])
    requires forall m :: 0 <= m <= i ==> !Reached(w, [order[m]], y)
    ensures Before(t, order[i], y)
  {
    NoneSoFar(w, order, parts, t, i + 1, y);
    NoneBehind(w, order, parts, t, i);
    SplitAt(w, order, parts, t, i + 1);
    BeforePlus(Concat(parts[..i + 1]), Concat(parts[i + 1..]), order[i], y);
  }

  lemma SplitAt(w: World, order: seq<Path>, parts: seq<Text>, t: Text, n: nat)
    requires IsGroupText(w, order, parts, t) && n <= |parts|
    ensures |parts| == |order| && t == Concat(parts[..n]) + Concat(parts[n..])
  {
    ConcatSplit(parts, n);
  }

  lemma ConcatSplit(parts: seq<Text>, n: nat)
    requires n <= |parts|
    ensures Concat(parts) == Concat(parts[..n]) + Concat(parts[n..])
  {
    var a, b := parts[..n], parts[n..];
    assert parts == a + b;
    ConcatPlus(a, b);
  }

  /** Of every group text, at whatever depth it stands. */
  lemma GroupPutsParentsFirst(w: World, names: seq<Path>, t: Text)
    requires GroupText(w, names, t)
    ensures ParentsPutFirst(w, names, t)
  {
    var order, parts :| IsOrder(w, names, order) && IsGroupText(w, order, parts, t);
    forall x, y | Extends(w, names, x, y) && !Forced(w, x) ensures Before(t, x, y) || LedToFrom(w, order, x, y) {
      ExtendedReadable(w, names, x, y);
      assert x in Elements(order);
      var i: nat :| i < |order| && order[i] == x;
      if !LedToFrom(w, order, x, y) { TurnsPutFirst(w, order, parts, t, i, y); }
    }
  }

  lemma ExtendedReadable(w: World, names: seq<Path>, x: Path, y: Path)
    requires Extends(w, names, x, y)
    ensures x in Readable(w, names) && y in Readable(w, names)
  {
    var c :| c in Parents(w.files[y].classes) && Definer(w, names, c) == Some(x);
    DefinerReads(w, names, c);
  }

  // ---------- The module code ----------

  predicate AreModuleFiles(w: World, paths: seq<Path>) {
    forall p :: p in paths ==> p in w.modules.Values
  }

  ghost predicate ModuleGroup(w: World, t: Text) {
    exists paths :: AreModuleFiles(w, paths) && GroupText(w, paths, t)
  }

  ghost predicate AreModuleGroups(w: World, groups: seq<Text>) {
    forall k :: 0 <= k < |groups| ==> ModuleGroup(w, groups[k])
  }

  /** Texts of groups of module files, one behind the other. */
  ghost predicate ModuleText(w: World, t: Text) {
    exists groups :: t == Concat(groups) && AreModuleGroups(w, groups)
  }

  lemma NoModules(w: World)
    ensures ModuleText(w, [])
  {
    assert Concat([]) == [] && AreModuleGroups(w, []);
  }

  lemma MoreModules(w: World, a: Text, b: Text)
    requires ModuleText(w, a) && ModuleText(w, b)
    ensures ModuleText(w, a + b)
  {
    var g :| a == Concat(g) && AreModuleGroups(w, g);
    var h :| b == Concat(h) && AreModuleGroups(w, h);
    ConcatPlus(g, h);
    assert AreModuleGroups(w, g + h);
  }

  lemma OneModuleGroup(w: World, a: Text, paths: seq<Path>, g: Text)
    requires ModuleText(w, a) && AreModuleFiles(w, paths) && GroupText(w, paths, g)
    ensures ModuleText(w, a + g)
  {
    assert Concat([g]) == Concat([]) + g == g by { assert [g][..0] == []; }
    assert ModuleGroup(w, g) && AreModuleGroups(w, [g]);
    MoreModules(w, a, g);
  }
}
