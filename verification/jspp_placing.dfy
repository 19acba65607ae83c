/** Where the pieces of a file stand in the text of a whole build: all in the one group that puts the file out, and in the
    order of its classes. */
module LinkPlacing {
  import opened Common
  import opened Sources
  import opened FileOrder
  import opened FileGroup
  import opened ModuleScan
  import opened Emission
  import opened Closure
  import opened LinkTexts

  function Count(t: Text, f: Path, i: nat): nat {
    multiset(t)[Piece(f, i)]
  }

  /** The text has n times each of the pieces of f. */
  ghost predicate Even(w: World, t: Text, f: Path, n: nat)
    requires f in w.files
  {
    forall i :: 0 <= i <= |w.files[f].calls| ==> Count(t, f, i) == n
  }

  ghost predicate Evenly(w: World, t: Text, f: Path)
    requires f in w.files
  {
    exists n: nat :: Even(w, t, f, n)
  }

  lemma CountPlus(a: Text, b: Text, f: Path, i: nat)
    ensures Count(a + b, f, i) == Count(a, f, i) + Count(b, f, i)
  {
  }

  lemma EvenPlus(w: World, a: Text, b: Text, f: Path)
    requires f in w.files && Evenly(w, a, f) && Evenly(w, b, f)
    ensures Evenly(w, a + b, f)
  {
    var n: nat :| Even(w, a, f, n);
    var m: nat :| Even(w, b, f, m);
    forall i | 0 <= i <= |w.files[f].calls| ensures Count(a + b, f, i) == n + m { CountPlus(a, b, f, i); }
    assert Even(w, a + b, f, n + m);
  }

  lemma NoneEven(w: World, f: Path)
    requires f in w.files
    ensures Evenly(w, [], f)
  {
    assert Even(w, [], f, 0);
  }

  lemma {:induction false} EvenConcat(w: World, parts: seq<Text>, f: Path)
    requires f in w.files && forall k :: 0 <= k < |parts| ==> Evenly(w, parts[k], f)
    ensures Evenly(w, Concat(parts), f)
    decreases |parts|
  {
    if parts == [] {
      NoneEven(w, f);
    } else {
      EvenConcat(w, parts[..|parts| - 1], f);
      EvenPlus(w, Concat(parts[..|parts| - 1]), parts[|parts| - 1], f);
    }
  }

  /** The first pieces of a file stand once more than the others. */
  ghost predicate EvenBut(w: World, t: Text, f: Path, root: Path, k: nat, n: nat)
    requires f in w.files
  {
    forall i :: 0 <= i <= |w.files[f].calls| ==> Count(t, f, i) == n + if f == root && i < k then 1 else 0
  }

  lemma {:induction false} EvenWoven(w: World, root: Path, parts: seq<Text>, f: Path) returns (n: nat)
    requires f in w.files && forall k :: 0 <= k < |parts| ==> Evenly(w, parts[k], f)
    ensures EvenBut(w, Woven(root, parts), f, root, |parts|, n)
    decreases |parts|
  {
    n := 0;
    if parts != [] {
      var k := |parts| - 1;
      n := EvenWoven(w, root, parts[..k], f);
      n := EvenPart(w, Woven(root, parts[..k]), parts[k], f, root, k, n);
    }
  }

  lemma EvenPart(w: World, t: Text, part: Text, f: Path, root: Path, k: nat, n: nat) returns (n': nat)
    requires f in w.files && EvenBut(w, t, f, root, k, n) && Evenly(w, part, f)
    ensures EvenBut(w, t + [Piece(root, k)] + part, f, root, k + 1, n')
  {
    var m: nat :| Even(w, part, f, m);
    n' := n + m;
    forall i | 0 <= i <= |w.files[f].calls|
      ensures Count(t + [Piece(root, k)] + part, f, i) == n' + if f == root && i < k + 1 then 1 else 0
    {
      CountPlus(t + [Piece(root, k)], part, f, i);
      CountPlus(t, [Piece(root, k)], f, i);
    }
  }

  lemma EvenWhole(w: World, root: Path, parts: seq<Text>, f: Path, n: nat)
    requires f in w.files && root in w.files && |parts| == |w.files[root].calls|
    requires EvenBut(w, Woven(root, parts), f, root, |parts|, n)
    ensures Evenly(w, Woven(root, parts) + [Piece(root, |parts|)], f)
  {
    NoneEven(w, f);
    var n' := EvenPart(w, Woven(root, parts), [], f, root, |parts|, n);
    var t := Woven(root, parts) + [Piece(root, |parts|)];
    assert t + [] == t;
    assert Even(w, t, f, if f == root then n' + 1 else n');
  }

  // ---------- Every text has its files whole ----------

  lemma {:induction false} FileEven(w: World, root: Path, t: Text, f: Path)
    requires f in w.files && FileText(w, root, t)
    ensures Evenly(w, t, f)
    decreases |t|, 2
  {
    var parts :| IsFileText(w, root, parts, t);
    forall i | 0 <= i < |parts| ensures Evenly(w, parts[i], f) { CallEven(w, w.files[root].calls[i].paths, parts[i], f); }
    var n := EvenWoven(w, root, parts, f);
    EvenWhole(w, root, parts, f, n);
  }

  lemma {:induction false} CallEven(w: World, args: seq<PathArg>, t: Text, f: Path)
    requires f in w.files && CallText(w, args, t)
    ensures Evenly(w, t, f)
    decreases |t|, 6
  {
    var parts :| IsCallText(w, args, parts, t);
    forall j | 0 <= j < |parts| ensures Evenly(w, parts[j], f) {
      if parts[j] == [] { NoneEven(w, f); } else { GroupEven(w, args[j].files.value, parts[j], f); }
    }
    EvenConcat(w, parts, f);
  }

  lemma {:induction false} GroupEven(w: World, names: seq<Path>, t: Text, f: Path)
    requires f in w.files && GroupText(w, names, t)
    ensures Evenly(w, t, f)
    decreases |t|, 4
  {
    var order, parts :| IsOrder(w, names, order) && IsGroupText(w, order, parts, t);
    forall k | 0 <= k < |parts| ensures Evenly(w, parts[k], f) {
      if parts[k] == [] { NoneEven(w, f); } else { FileEven(w, order[k], parts[k], f); }
    }
    EvenConcat(w, parts, f);
  }

  // ---------- A group within a build ----------

  lemma {:induction false} OnlyCount(t: Text, f: Path, i: nat)
    ensures Count(Only(t, f), f, i) == Count(t, f, i)
    decreases |t|
  {
    if t != [] {
      var most, last := t[..|t| - 1], t[|t| - 1];
      OnlyCount(most, f, i);
      assert t == most + [last];
    }
  }

  lemma {:induction false} PiecesCount(f: Path, n: nat, i: nat)
    ensures Count(Pieces(f, n), f, i) == if i < n then 1 else 0
    decreases n
  {
    if n > 0 { PiecesCount(f, n - 1, i); }
  }

  lemma OnlySome(t: Text, k: nat)
    requires k < |t|
    ensures Only(t, t[k].file) != [] && Count(t, t[k].file, t[k].index) > 0
  {
    assert t[k] == Piece(t[k].file, t[k].index);
    if Only(t, t[k].file) == [] { OnlyNone(t, t[k].file); }
  }

  lemma WholeOnce(w: World, t: Text, x: Path, i: nat)
    requires Only(t, x) == Whole(w, x) && x in w.files
    ensures Count(t, x, i) == if i <= |w.files[x].calls| then 1 else 0
  {
    OnlyCount(t, x, i);
    PiecesCount(x, |w.files[x].calls| + 1, i);
  }

  /** A file that stands whole and once in a text stands in none of the rest, if a group has a piece of it. */
  lemma NowhereElse(w: World, a: Text, g: Text, b: Text, names: seq<Path>, x: Path)
    requires GroupText(w, names, g) && Only(a + g + b, x) == Whole(w, x) && !NoPiece(g, x)
    ensures NoPiece(a, x) && NoPiece(b, x)
  {
    var code := a + g + b;
    var k :| 0 <= k < |g| && g[k].file == x;
    assert g[k] == code[|a| + k];
    OnlySome(code, |a| + k);
    OnlySome(g, k);
    GroupEven(w, names, g, x);
    var n: nat :| Even(w, g, x, n);
    forall i: nat ensures Count(a, x, i) + Count(g, x, i) + Count(b, x, i) == if i <= |w.files[x].calls| then 1 else 0 {
      WholeOnce(w, code, x, i);
    }
    assert Count(g, x, g[k].index) == 1 == n;
    forall j | 0 <= j < |a| ensures Count(a, a[j].file, a[j].index) > 0 { OnlySome(a, j); }
    forall j | 0 <= j < |b| ensures Count(b, b[j].file, b[j].index) > 0 { OnlySome(b, j); }
  }

  lemma BeforeWithin(a: Text, g: Text, b: Text, x: Path, y: Path)
    requires Before(g, x, y) && NoPiece(a, x) && NoPiece(b, x) && NoPiece(a, y) && NoPiece(b, y)
    ensures Before(a + g + b, x, y)
  {
  }

  /** Two files that a group puts out, each once in the whole code: all of the class stands in front of all of the one that
      extends it, unless imports lead to the latter from the former or from a file before it in the order. */
  lemma PlacedInOrder(w: World, a: Text, g: Text, b: Text, names: seq<Path>, x: Path, y: Path)
    requires GroupText(w, names, g) && Extends(w, names, x, y) && !Forced(w, x)
    requires Only(a + g + b, x) == Whole(w, x) && Only(a + g + b, y) == Whole(w, y) && !NoPiece(g, x) && !NoPiece(g, y)
    ensures Before(a + g + b, x, y) || exists order :: IsOrder(w, names, order) && LedToFrom(w, order, x, y)
  {
    GroupPutsParentsFirst(w, names, g);
    NowhereElse(w, a, g, b, names, x);
    NowhereElse(w, a, g, b, names, y);
    if Before(g, x, y) { BeforeWithin(a, g, b, x, y); }
  }
}
