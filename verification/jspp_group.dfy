/** The first half of compileFileGroup: collect the files of a group, link them by their class definitions, bump
    the counters and sort. */
module FileGroup {
  import opened Common
  import opened Sources
  import opened FileOrder

  class FileInfo {
    const dependsOf: seq<Name>
    var dependencies: seq<Path>
    var counter: nat

    constructor (dependsOf: seq<Name>)
      ensures this.dependsOf == dependsOf && dependencies == [] && counter == 0
    {
      this.dependsOf := dependsOf;
      dependencies, counter := [], 0;
    }
  }

  // ---------- The dependencies of a group ----------

  /** The classes extended by the definitions of a file, in order. */
  function Parents(classes: seq<ClassDef>): seq<Name> {
    if classes == [] then []
    else
      var last := classes[|classes| - 1];
      Parents(classes[..|classes| - 1]) + if last.parent.Some? then [last.parent.value] else []
  }

  predicate Defines(classes: seq<ClassDef>, c: Name) {
    exists i :: 0 <= i < |classes| && classes[i].name == c
  }

  /** The first readable file of the group that defines a class; later definitions are ignored. */
  function Definer(w: World, names: seq<Path>, c: Name): Option<Path> {
    if names == [] then None
    else
      var most, last := names[..|names| - 1], names[|names| - 1];
      if Definer(w, most, c).Some? then Definer(w, most, c)
      else if last in w.files && Defines(w.files[last].classes, c) then Some(last) else None
  }

  function Readable(w: World, names: seq<Path>): set<Path> {
    set x | x in names && x in w.files
  }

  /** File y extends a class whose (first) definition is in another file x of the group. */
  predicate Extends(w: World, names: seq<Path>, x: Path, y: Path) {
    x != y && y in Readable(w, names)
    && exists c :: c in Parents(w.files[y].classes) && Definer(w, names, c) == Some(x)
  }

  ghost predicate IsDependencyGraph(w: World, names: seq<Path>, g: Graph) {
    WellFormed(g) && g.Keys == Readable(w, names) && forall x, y :: Edge(g, x, y) <==> Extends(w, names, x, y)
  }

  /** No chain of class extensions leads from a file of the group back to itself. */
  ghost predicate Orderable(w: World, names: seq<Path>) {
    forall g :: IsDependencyGraph(w, names, g) ==> Acyclic(g)
  }

  ghost predicate AllSound(w: World, names: seq<Path>) {
    forall x :: x in Readable(w, names) ==> w.files[x].sound
  }

  lemma {:induction false} DefinerReads(w: World, names: seq<Path>, c: Name)
    ensures Definer(w, names, c).Some? ==> Definer(w, names, c).value in Readable(w, names)
    ensures Definer(w, names, c).Some? ==> Defines(w.files[Definer(w, names, c).value].classes, c)
    decreases |names|
  {
    if names != [] {
      DefinerReads(w, names[..|names| - 1], c);
      assert names == names[..|names| - 1] + [names[|names| - 1]];
    }
  }

  /** The file at position i of the group can be read and defines the class. */
  predicate DefinesAt(w: World, names: seq<Path>, i: nat, c: Name) {
    i < |names| && names[i] in w.files && Defines(w.files[names[i]].classes, c)
  }

  /** The definer is the first file of the group that defines the class. */
  lemma {:induction false} DefinerIsFirst(w: World, names: seq<Path>, c: Name)
    ensures Definer(w, names, c).Some? ==>
      exists i: nat :: DefinesAt(w, names, i, c) && Definer(w, names, c).value == names[i] && forall j: nat :: j < i ==> !DefinesAt(w, names, j, c)
    ensures Definer(w, names, c).None? ==> forall i: nat :: !DefinesAt(w, names, i, c)
    decreases |names|
  {
    if names != [] {
      var n := |names| - 1;
      DefinerIsFirst(w, names[..n], c);
      assert forall i: nat :: i < n ==> (DefinesAt(w, names, i, c) <==> DefinesAt(w, names[..n], i, c));
      if Definer(w, names[..n], c).None? && DefinesAt(w, names, n, c) {
        assert forall j: nat :: j < n ==> !DefinesAt(w, names, j, c);
      }
    }
  }

  lemma {:induction false} ParentsAre(classes: seq<ClassDef>, c: Name)
    ensures c in Parents(classes) <==> exists i :: 0 <= i < |classes| && classes[i].parent == Some(c)
    decreases |classes|
  {
    if classes != [] {
      ParentsAre(classes[..|classes| - 1], c);
      assert classes == classes[..|classes| - 1] + [classes[|classes| - 1]];
    }
  }

  // ---------- Collecting ----------

  type Infos = map<Path, FileInfo>

  /** One object for each file. */
  ghost predicate Separate(list: Infos) {
    forall x, y :: x in list && y in list && x != y ==> list[x] != list[y]
  }

  ghost predicate Collected(w: World, names: seq<Path>, list: Infos)
    reads list.Values
  {
    && list.Keys == Readable(w, names) && Separate(list)
    && forall x :: x in list ==>
      list[x].dependsOf == Parents(w.files[x].classes) && list[x].dependencies == [] && list[x].counter == 0
  }

  ghost predicate MapsClasses(w: World, names: seq<Path>, classes: map<Name, Path>) {
    forall c :: (c in classes <==> Definer(w, names, c).Some?) && (c in classes ==> Definer(w, names, c) == Some(classes[c]))
  }

  lemma MoreDefines(defs: seq<ClassDef>, d: ClassDef)
    ensures forall c :: Defines(defs + [d], c) <==> Defines(defs, c) || c == d.name
  {
    forall c | Defines(defs, c) || c == d.name ensures Defines(defs + [d], c) {
      if Defines(defs, c) {
        var k :| 0 <= k < |defs| && defs[k].name == c;
        assert (defs + [d])[k].name == c;
      } else {
        assert (defs + [d])[|defs|].name == c;
      }
    }
  }

  method NoteClasses(file: Path, defs: seq<ClassDef>, before: map<Name, Path>)
    returns (classes: map<Name, Path>, parents: seq<Name>)
    ensures forall c :: c in classes <==> c in before || Defines(defs, c)
    ensures forall c :: c in classes ==> classes[c] == if c in before then before[c] else file
    ensures parents == Parents(defs)
  {
    classes, parents := before, [];
    for i := 0 to |defs|
      invariant forall c :: c in classes <==> c in before || Defines(defs[..i], c)
      invariant forall c :: c in classes ==> classes[c] == if c in before then before[c] else file
      invariant parents == Parents(defs[..i])
    {
      assert defs[..i + 1] == defs[..i] + [defs[i]] && (defs[..i] + [defs[i]])[..i] == defs[..i];
      MoreDefines(defs[..i], defs[i]);
      if defs[i].name !in classes {
        classes := classes[defs[i].name := file];
      }
      if defs[i].parent.Some? {
        parents := parents + [defs[i].parent.value];
      }
    }
    assert defs[..|defs|] == defs;
  }

  /** The classes of one more readable file. */
  lemma MoreClasses(w: World, names: seq<Path>, x: Path, before: map<Name, Path>, classes: map<Name, Path>)
    requires MapsClasses(w, names, before) && x in w.files
    requires forall c :: c in classes <==> c in before || Defines(w.files[x].classes, c)
    requires forall c :: c in classes ==> classes[c] == if c in before then before[c] else x
    ensures MapsClasses(w, names + [x], classes)
  {
  }

  lemma NoMoreClasses(w: World, names: seq<Path>, x: Path, classes: map<Name, Path>)
    requires MapsClasses(w, names, classes) && x !in w.files
    ensures MapsClasses(w, names + [x], classes)
  {
  }

  lemma MoreReadable(w: World, names: seq<Path>, x: Path)
    ensures Readable(w, names + [x]) == Readable(w, names) + if x in w.files then {x} else {}
  {
  }

  method CollectFile(w: World, names: seq<Path>, x: Path, list: Infos, classes: map<Name, Path>)
    returns (list': Infos, classes': map<Name, Path>)
    requires x in w.files
    requires Collected(w, names, list) && MapsClasses(w, names, classes)
    ensures Collected(w, names + [x], list') && MapsClasses(w, names + [x], classes')
    ensures fresh(list'.Values - list.Values)
  {
    var parents;
    classes', parents := NoteClasses(x, w.files[x].classes, classes);
    MoreClasses(w, names, x, classes, classes');
    MoreReadable(w, names, x);
    var info := new FileInfo(parents);
    list' := list[x := info];
  }

  /** Unreadable files are passed over; a file whose inner directives fail spoils the group. */
  method Collect(w: World, names: seq<Path>) returns (ok: bool, list: Infos, classes: map<Name, Path>)
    ensures ok <==> AllSound(w, names)
    ensures ok ==> Collected(w, names, list) && MapsClasses(w, names, classes)
    ensures fresh(list.Values)
  {
    ok, list, classes := true, map[], map[];
    for i := 0 to |names|
      invariant AllSound(w, names[..i])
      invariant Collected(w, names[..i], list) && MapsClasses(w, names[..i], classes)
      invariant fresh(list.Values)
    {
      var x := names[i];
      assert names[..i + 1] == names[..i] + [x];
      MoreReadable(w, names[..i], x);
      if x !in w.files {
        NoMoreClasses(w, names[..i], x, classes);
        continue;
      }
      if !w.files[x].sound {
        assert x in Readable(w, names);
        ok := false;
        return;
      }
      list, classes := CollectFile(w, names[..i], x, list, classes);
    }
    assert names[..|names|] == names;
  }

  // ---------- Linking ----------

  ghost function Dependencies(list: Infos): Graph
    reads list.Values`dependencies
  {
    map x | x in list :: list[x].dependencies
  }

  predicate ExtendsBy(w: World, names: seq<Path>, cs: seq<Name>, x: Path, y: Path) {
    x != y && exists c :: c in cs && Definer(w, names, c) == Some(x)
  }

  ghost predicate Linkable(w: World, names: seq<Path>, list: Infos) {
    list.Keys == Readable(w, names) && Separate(list)
    && forall x :: x in list ==> list[x].dependsOf == Parents(w.files[x].classes)
  }

  method LinkFile(w: World, names: seq<Path>, list: Infos, classes: map<Name, Path>, y: Path)
    requires Linkable(w, names, list) && MapsClasses(w, names, classes)
    requires y in list && forall x :: x in list ==> y !in list[x].dependencies
    modifies list.Values`dependencies
    ensures forall x :: x in list ==>
      list[x].dependencies == old(list[x].dependencies) + if Extends(w, names, x, y) then [y] else []
  {
    var parents := list[y].dependsOf;
    for k := 0 to |parents|
      invariant forall x :: x in list ==>
        list[x].dependencies == old(list[x].dependencies) + if ExtendsBy(w, names, parents[..k], x, y) then [y] else []
    {
      var c := parents[k];
      assert parents[..k + 1] == parents[..k] + [c];
      assert forall x :: ExtendsBy(w, names, parents[..k + 1], x, y) <==>
        ExtendsBy(w, names, parents[..k], x, y) || (x != y && Definer(w, names, c) == Some(x));
      if c in classes && classes[c] != y {
        DefinerReads(w, names, c);
        var info := list[classes[c]];
        if y !in info.dependencies {
          info.dependencies := info.dependencies + [y];
        }
      }
    }
    assert parents[..|parents|] == parents;
    assert forall x :: Extends(w, names, x, y) <==> ExtendsBy(w, names, parents, x, y);
  }

  ghost predicate LinkedUpTo(w: World, names: seq<Path>, g: Graph, left: set<Path>) {
    forall x :: x in g ==>
      Distinct(g[x]) && forall y :: y in g[x] <==> y in g.Keys - left && Extends(w, names, x, y)
  }

  /** One more file is linked to the files it extends. */
  lemma LinkedStep(w: World, names: seq<Path>, before: Graph, after: Graph, left: set<Path>, y: Path)
    requires LinkedUpTo(w, names, before, left) && y in left && before.Keys == after.Keys && left <= before.Keys
    requires forall x :: x in before ==> after[x] == before[x] + if Extends(w, names, x, y) then [y] else []
    ensures LinkedUpTo(w, names, after, left - {y})
  {
  }

  lemma AllLinked(w: World, names: seq<Path>, g: Graph)
    requires g.Keys == Readable(w, names) && LinkedUpTo(w, names, g, {})
    ensures IsDependencyGraph(w, names, g)
  {
    forall x, y | Extends(w, names, x, y) ensures x in g {
      var c :| c in Parents(w.files[y].classes) && Definer(w, names, c) == Some(x);
      DefinerReads(w, names, c);
    }
  }

  /** One more round of the linking loop. */
  method LinkNext(w: World, names: seq<Path>, list: Infos, classes: map<Name, Path>, ghost left: set<Path>, y: Path)
    requires Linkable(w, names, list) && MapsClasses(w, names, classes)
    requires left <= list.Keys && y in left && LinkedUpTo(w, names, Dependencies(list), left)
    modifies list.Values`dependencies
    ensures LinkedUpTo(w, names, Dependencies(list), left - {y})
  {
    ghost var before := Dependencies(list);
    assert forall x :: x in list ==> y !in before[x];
    LinkFile(w, names, list, classes, y);
    LinkedStep(w, names, before, Dependencies(list), left, y);
  }

  method SetDependencies(w: World, names: seq<Path>, list: Infos, classes: map<Name, Path>)
    requires Linkable(w, names, list) && MapsClasses(w, names, classes)
    requires forall x :: x in list ==> list[x].dependencies == []
    modifies list.Values`dependencies
    ensures IsDependencyGraph(w, names, Dependencies(list))
  {
    var left := list.Keys;
    while left != {}
      invariant left <= list.Keys && LinkedUpTo(w, names, Dependencies(list), left)
      decreases |left|
    {
      var y :| y in left;
      LinkNext(w, names, list, classes, left, y);
      left := left - {y};
    }
    AllLinked(w, names, Dependencies(list));
  }

  // ---------- Counting and sorting ----------

  ghost function Counters(list: Infos): map<Path, nat>
    reads list.Values`counter
  {
    map x | x in list :: list[x].counter
  }

  method IncrementCounter(list: Infos, index: Path, ghost g: Graph)
    requires Separate(list) && Dependencies(list) == g && WellFormed(g) && Acyclic(g) && index in list
    modifies list.Values`counter
    ensures forall f :: f in list ==> list[f].counter == old(list[f].counter) + Bumps(g, index, f)
    decreases Reach(g, index)
  {
    list[index].counter := list[index].counter + 1;
    var deps := list[index].dependencies;
    assert deps == g[index];
    for k := 0 to |deps|
      invariant Dependencies(list) == g
      invariant forall f :: f in list ==>
        list[f].counter == old(list[f].counter) + (if index == f then 1 else 0) + BumpsEach(g, index, k, f)
    {
      ReachShrinks(g, index, deps[k]);
      ghost var before := Counters(list);
      IncrementCounter(list, deps[k], g);
      assert forall f :: f in list ==> list[f].counter == before[f] + Bumps(g, deps[k], f);
    }
  }

  lemma OneMore(done: seq<Path>, key: Path, left: set<Path>, keys: set<Path>)
    requires Distinct(done) && left <= keys && Elements(done) == keys - left && key in left
    ensures Distinct(done + [key]) && Elements(done + [key]) == keys - (left - {key})
  {
    assert forall x :: x in done ==> x in Elements(done);
    assert Elements(done + [key]) == Elements(done) + {key};
  }

  ghost predicate CountedFrom(g: Graph, done: seq<Path>, counters: map<Path, nat>)
    requires WellFormed(g) && Acyclic(g) && forall x :: x in done ==> x in g
  {
    forall f :: f in counters ==> counters[f] == BumpsAll(g, done, f)
  }

  lemma BumpOneMore(g: Graph, done: seq<Path>, key: Path, before: map<Path, nat>, after: map<Path, nat>)
    requires WellFormed(g) && Acyclic(g) && key in g && forall x :: x in done ==> x in g
    requires CountedFrom(g, done, before) && after.Keys == before.Keys
    requires forall f :: f in after ==> after[f] == before[f] + Bumps(g, key, f)
    ensures CountedFrom(g, done + [key], after)
  {
  }

  method CountDependencies(list: Infos, ghost g: Graph)
    requires Separate(list) && Dependencies(list) == g && WellFormed(g) && Acyclic(g)
    requires forall f :: f in list ==> list[f].counter == 0
    modifies list.Values`counter
    ensures forall f :: f in list ==> list[f].counter == |PathsTo(g, f)|
  {
    var left := list.Keys;
    ghost var done: seq<Path> := [];
    while left != {}
      invariant left <= list.Keys && Elements(done) == list.Keys - left && Distinct(done)
      invariant forall x :: x in done ==> x in g
      invariant Dependencies(list) == g && CountedFrom(g, done, Counters(list))
      decreases |left|
    {
      var key :| key in left;
      OneMore(done, key, left, list.Keys);
      ghost var before := Counters(list);
      IncrementCounter(list, key, g);
      BumpOneMore(g, done, key, before, Counters(list));
      done, left := done + [key], left - {key};
    }
    forall f | f in list ensures list[f].counter == |PathsTo(g, f)| {
      CounterIsPathCount(g, done, f);
      assert f in Counters(list);
    }
  }

  lemma {:induction false} LeastExists(keys: set<Path>, counters: map<Path, nat>)
    requires keys != {} && keys <= counters.Keys
    ensures exists m :: m in keys && forall k :: k in keys ==> counters[m] <= counters[k]
    decreases keys
  {
    var x :| x in keys;
    if keys == {x} {
      assert forall k :: k in keys ==> k == x;
    } else {
      assert keys - {x} != {};
      LeastExists(keys - {x}, counters);
      var m :| m in keys - {x} && forall k :: k in keys - {x} ==> counters[m] <= counters[k];
      var best := if counters[x] < counters[m] then x else m;
      assert forall k :: k in keys ==> k == x || k in keys - {x};
      assert best in keys && forall k :: k in keys ==> counters[best] <= counters[k];
    }
  }

  /** The library sort: every file once, by counter, in no particular order where counters are equal. */
  method SortFiles(counters: map<Path, nat>) returns (order: seq<Path>)
    ensures Distinct(order) && Elements(order) == counters.Keys
    ensures forall i, j :: 0 <= i < j < |order| ==> counters[order[i]] <= counters[order[j]]
  {
    order := [];
    var left := counters.Keys;
    while left != {}
      invariant left <= counters.Keys && Elements(order) == counters.Keys - left && Distinct(order)
      invariant forall x :: x in order ==> x in counters && x !in left
      invariant forall i, j :: 0 <= i < j < |order| ==> counters[order[i]] <= counters[order[j]]
      invariant forall x, y :: x in order && y in left ==> counters[x] <= counters[y]
      decreases |left|
    {
      LeastExists(left, counters);
      var m :| m in left && forall k :: k in left ==> counters[m] <= counters[k];
      OneMore(order, m, left, counters.Keys);
      order, left := order + [m], left - {m};
    }
  }

  lemma ParentsFirst(w: World, names: seq<Path>, g: Graph, order: seq<Path>)
    requires IsDependencyGraph(w, names, g) && Acyclic(g) && SortedByCounter(g, order)
    ensures forall i, j :: 0 <= i < |order| && 0 <= j < |order| && Extends(w, names, order[i], order[j]) ==> i < j
  {
    CounterOrderIsTopological(g, order);
    forall i, j | 0 <= i < |order| && 0 <= j < |order| && Extends(w, names, order[i], order[j]) ensures i < j {
      assert Edge(g, order[i], order[j]);
    }
  }

  method LinkAndCount(w: World, names: seq<Path>, list: Infos, classes: map<Name, Path>) returns (ghost g: Graph)
    requires Orderable(w, names) && Collected(w, names, list) && MapsClasses(w, names, classes)
    modifies list.Values
    ensures IsDependencyGraph(w, names, g) && Acyclic(g)
    ensures forall f :: f in list ==> list[f].counter == |PathsTo(g, f)|
  {
    SetDependencies(w, names, list, classes);
    g := Dependencies(list);
    CountDependencies(list, g);
  }

  /** Every readable file of the group once, before all the files of the group that extend its classes. */
  predicate IsOrder(w: World, names: seq<Path>, order: seq<Path>) {
    && Distinct(order) && Elements(order) == Readable(w, names)
    && forall i, j :: 0 <= i < |order| && 0 <= j < |order| && Extends(w, names, order[i], order[j]) ==> i < j
  }

  /** The whole of it: the group is given up because of an unsound file, or its readable files are put in order. */
  method OrderGroup(w: World, names: seq<Path>) returns (ok: bool, order: seq<Path>)
    requires AllSound(w, names) ==> Orderable(w, names)
    ensures ok <==> AllSound(w, names)
    ensures ok ==> IsOrder(w, names, order)
  {
    var list, classes;
    ok, list, classes := Collect(w, names);
    if !ok { return false, []; }
    ghost var g := LinkAndCount(w, names, list, classes);
    var counters := map x | x in list :: list[x].counter;
    order := SortFiles(counters);
    ParentsFirst(w, names, g, order);
  }
}
