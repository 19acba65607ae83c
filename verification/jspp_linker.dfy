/** The recursion of a build: processImport, plugRequire and compileFileGroup call one another over the fields of
    one compiler. It ends on cyclic imports, and it puts every file out once. */
module Linker {
  import opened Common
  import opened Sources
  import opened FileOrder
  import opened FileGroup
  import opened ModuleScan
  import opened Emission
  import opened Closure
  import opened LinkTexts
  import opened LinkPlacing
  import opened LinkSteps
  import opened LinkRuns
  import opened LinkEnds

  class Compiler {
    const w: World
    const buildModules: bool
    var compiledFiles: seq<Path>
    var compiledModules: seq<Name>
    var modulesCode: Text

    constructor (w: World, buildModules: bool)
      ensures this.w == w && this.buildModules == buildModules
      ensures compiledFiles == [] && compiledModules == [] && modulesCode == []
    {
      this.w, this.buildModules := w, buildModules;
      compiledFiles, compiledModules, modulesCode := [], [], [];
    }

    ghost function Now(): Snap
      reads this
    {
      Snap(compiledFiles, compiledModules, modulesCode)
    }

    ghost function Has(): Noted
      reads this`compiledFiles, this`compiledModules
    {
      Noted(compiledFiles, compiledModules)
    }

    predicate CheckFileCompileAvailable(path: Path, force: bool)
      reads this`compiledFiles
    {
      Available(w, compiledFiles, path, force)
    }

    method NoteFileCompiled(path: Path)
      modifies this
      ensures Now() == old(Now()).(files := old(compiledFiles) + [path])
    {
      compiledFiles := compiledFiles + [path];
    }

    /** Names are appended unless they are there. */
    method NoteModules(names: seq<Name>)
      requires Distinct(compiledModules)
      modifies this
      ensures Now() == old(Now()).(modules := compiledModules) && Distinct(compiledModules)
      ensures forall m :: m in compiledModules <==> m in old(compiledModules) || m in names
    {
      for i := 0 to |names|
        invariant Now() == old(Now()).(modules := compiledModules) && Distinct(compiledModules)
        invariant forall m :: m in compiledModules <==> m in old(compiledModules) || m in names[..i]
      {
        if names[i] !in compiledModules {
          compiledModules := compiledModules + [names[i]];
        }
      }
    }

    method CompileFileGroup(names: seq<Path>, force: bool, ghost importer: Path) returns (ok: bool, out: Text)
      requires Buildable(w, buildModules, importer) && Valid(w, buildModules, Now()) && GroupFits(w, names)
      requires AllSound(w, names) ==> forall y :: y in names && y in w.files ==> Brings(w, buildModules, importer, y)
      requires force && AllSound(w, names) ==> forall y :: y in names ==> Forces(w, importer, y)
      modifies this
      ensures Progress(w, buildModules, names, old(Now()), Now(), out)
      ensures !AllSound(w, names) ==> !ok && Now() == old(Now())
      ensures !ok ==> out == [] && (!AllSound(w, names) || !Lossless(w, buildModules))
      ensures ok ==> forall y :: y in names && y in w.files ==> y in compiledFiles
      ensures ok ==> ParentsCompiledFirst(w, names, old(compiledFiles), compiledFiles)
      ensures ok ==> GroupText(w, names, out) && ParentsPutFirst(w, names, out)
      ensures GroupRuns(w, buildModules, names, force, old(Has()), Has(), ok)
      decreases Left(w, compiledFiles), Reach(ForcedGraph(w), importer), 3
    {
      Standing(w, buildModules, names, Now());
      var order;
      ok, order := OrderGroup(w, names);
      if !ok { return false, []; }
      assert forall x :: x in order ==> x in Elements(order) && x in Readable(w, names);
      ghost var parts;
      ok, out, parts := EmitFiles(order, names, force, importer);
      if ok {
        GroupPutsParentsFirst(w, names, out);
        AllIn(w, names, order, compiledFiles);
        TurnsDone(w, names, order, old(compiledFiles), compiledFiles);
      }
    }

    /** The emission loop, over the sorted files of the group. */
    method EmitFiles(order: seq<Path>, ghost names: seq<Path>, force: bool, ghost importer: Path)
      returns (ok: bool, out: Text, ghost parts: seq<Text>)
      requires Buildable(w, buildModules, importer) && Valid(w, buildModules, Now())
      requires forall x :: x in order ==> Brings(w, buildModules, importer, x) && x in names && (force ==> Forces(w, importer, x))
      modifies this
      ensures Progress(w, buildModules, names, old(Now()), Now(), out)
      ensures !ok ==> !Lossless(w, buildModules) && out == []
      ensures ok ==> FirstIn(order, |order|, compiledFiles)
      ensures ok ==> InTurn(w, order, |order|, old(compiledFiles), compiledFiles)
      ensures ok ==> IsGroupText(w, order, parts, out)
      ensures EmitRuns(w, buildModules, order, force, old(Has()), Has(), ok)
      decreases Left(w, compiledFiles), Reach(ForcedGraph(w), importer), 2
    {
      ok, out, parts := true, [], [];
      ghost var s := Now();
      Standing(w, buildModules, names, s);
      for i := 0 to |order|
        invariant ok && Progress(w, buildModules, names, s, Now(), out)
        invariant Turned(w, buildModules, order, i, force, old(Has()), Has(), parts, out)
      {
        ghost var t, before := Now(), out;
        LeftShrinks(w, s.files, t.files);
        ghost var part;
        ok, out, part := EmitNext(order[i], names, force, importer, s, out);
        if !ok {
          OneMoreFile(w, buildModules, order, i, force, old(Has()), Noted(t.files, t.modules), Has(), ok);
          FailedEarly(w, buildModules, order, i + 1, force, old(Has()), Has());
          return;
        }
        NextTurn(w, buildModules, order, i, force, old(Has()), Noted(t.files, t.modules), Has(), parts, before, part);
        parts := parts + [part];
      }
      assert order[..|order|] == order;
    }

    method EmitNext(file: Path, ghost names: seq<Path>, force: bool, ghost importer: Path, ghost s: Snap, before: Text)
      returns (ok: bool, out: Text, ghost part: Text)
      requires Buildable(w, buildModules, importer) && Progress(w, buildModules, names, s, Now(), before)
      requires Brings(w, buildModules, importer, file) && file in names && (force ==> Forces(w, importer, file))
      modifies this
      ensures Progress(w, buildModules, names, s, Now(), out) && Extended(old(compiledFiles), compiledFiles)
      ensures ReachedSince(w, [file], compiledFiles, |old(compiledFiles)|)
      ensures !ok ==> !Lossless(w, buildModules) && out == []
      ensures ok ==> file in compiledFiles
      ensures ok ==> out == before + part && TurnText(w, file, old(compiledFiles), part)
      ensures NextRuns(w, buildModules, file, force, old(Has()), Has(), ok)
      decreases Left(w, compiledFiles), Reach(ForcedGraph(w), importer), 1
    {
      if !CheckFileCompileAvailable(file, force) {
        return true, before, [];
      }
      ghost var t := Now();
      var code;
      ok, code := CompileFile(file, importer);
      ProgressFrom(w, buildModules, [file], names, t, Now(), code);
      ProgressTwice(w, buildModules, names, s, t, Now(), before, code);
      if !ok {
        ProgressLost(w, buildModules, names, s, Now(), before + code);
        return false, [], [];
      }
      out, part := before + code, code;
      TurnPut(w, buildModules, file, t, Now(), code);
    }

    /** One file of a group that is not compiled yet, or compiled again by force. */
    method CompileFile(file: Path, ghost importer: Path) returns (ok: bool, out: Text)
      requires Buildable(w, buildModules, importer) && Valid(w, buildModules, Now()) && Brings(w, buildModules, importer, file)
      requires file in compiledFiles ==> Forces(w, importer, file)
      modifies this
      ensures Progress(w, buildModules, [file], old(Now()), Now(), out)
      ensures !ok ==> !Lossless(w, buildModules) && out == []
      ensures ok ==> FileText(w, file, out)
      ensures file in compiledFiles
      ensures FileRuns(w, buildModules, file, old(Has()), Has(), ok)
      decreases Left(w, compiledFiles), Reach(ForcedGraph(w), importer), 0
    {
      ghost var t := Now();
      NoteFileCompiled(file);
      BuildableNow(w, buildModules, importer);
      BuildableNext(w, buildModules, importer, file);
      NotingShrinks(w, t.files, file, importer);
      StillBacked(w, buildModules, t, file);
      ok, out := ProcessImport(file);
      FirstOfMore(t.files, file, compiledFiles);
      if ok {
        ProgressFile(w, buildModules, file, t, Now(), out);
      } else {
        ProgressFileLost(w, buildModules, file, t, Now());
      }
    }

    method ProcessImport(root: Path) returns (ok: bool, out: Text)
      requires Buildable(w, buildModules, root) && Valid(w, buildModules, Now())
      requires root in compiledFiles
      modifies this
      ensures ok ==> ProgressIn(w, buildModules, root, |w.files[root].calls| + 1, old(Now()), Now(), out)
      ensures ok ==> FileText(w, root, out)
      ensures ok && SoundWorld(w) ==> Satisfied(w, buildModules, compiledFiles, root)
      ensures !ok ==> !Lossless(w, buildModules) && ProgressIn(w, buildModules, root, 0, old(Now()), Now(), []) && out == []
      ensures ImportRuns(w, buildModules, root, old(Has()), Has(), ok)
      decreases Left(w, compiledFiles), Reach(ForcedGraph(w), root), 8
    {
      ghost var s := Now();
      ok := ImportModules(root);
      LeftShrinks(w, s.files, compiledFiles);
      if !ok { return false, []; }
      out := PlugCalls(root, s);
    }

    /** The path half of processImport: the file's own pieces with what its calls bring in between them. */
    method PlugCalls(root: Path, ghost s: Snap) returns (out: Text)
      requires Buildable(w, buildModules, root) && InFile(w, buildModules, root, s, Now(), [])
      modifies this
      ensures ProgressIn(w, buildModules, root, |w.files[root].calls| + 1, s, Now(), out)
      ensures FileText(w, root, out)
      ensures SoundWorld(w) ==> Satisfied(w, buildModules, compiledFiles, root)
      ensures CallsRun(w, buildModules, w.files[root].calls, old(Has()), Has())
      decreases Left(w, compiledFiles), Reach(ForcedGraph(w), root), 7
    {
      out := [];
      ghost var parts: seq<Text>, left := [], Left(w, compiledFiles);
      for i := 0 to |w.files[root].calls|
        invariant |parts| == i && InFile(w, buildModules, root, s, Now(), parts) && out == Woven(root, parts)
        invariant Left(w, compiledFiles) <= left
        invariant CallsRun(w, buildModules, w.files[root].calls[..i], old(Has()), Has())
      {
        out, parts := PlugCall(root, i, s, old(Has()), parts, out);
      }
      PastCalls(w, buildModules, root, s, Now(), parts);
      assert w.files[root].calls[..|w.files[root].calls|] == w.files[root].calls;
      out := out + [Piece(root, |w.files[root].calls|)];
    }

    /** One more call: the piece before it, and what it brings in. */
    method PlugCall(root: Path, i: nat, ghost s: Snap, ghost had: Noted, ghost parts: seq<Text>, before: Text)
      returns (out: Text, ghost parts': seq<Text>)
      requires Buildable(w, buildModules, root) && |parts| == i < |w.files[root].calls|
      requires InFile(w, buildModules, root, s, Now(), parts) && before == Woven(root, parts)
      requires CallsRun(w, buildModules, w.files[root].calls[..|parts|], had, Has())
      modifies this
      ensures |parts'| == |parts| + 1 && InFile(w, buildModules, root, s, Now(), parts') && out == Woven(root, parts')
      ensures CallsRun(w, buildModules, w.files[root].calls[..|parts'|], had, Has())
      ensures Left(w, compiledFiles) <= Left(w, old(compiledFiles))
      decreases Left(w, compiledFiles), Reach(ForcedGraph(w), root), 6
    {
      ghost var t := Now();
      var call := w.files[root].calls[i];
      assert call in w.files[root].calls;
      var included := PlugAll(root, call.paths);
      LeftShrinks(w, t.files, compiledFiles);
      PastCall(w, buildModules, root, s, t, Now(), parts, included);
      OneMoreCall(w, buildModules, w.files[root].calls, i, had, Noted(t.files, t.modules), Has());
      out := before + [Piece(root, i)] + included;
      parts' := parts + [included];
    }

    /** The path arguments of one call, in turn; what fails is logged and left out. */
    method PlugAll(root: Path, args: seq<PathArg>) returns (out: Text)
      requires Buildable(w, buildModules, root) && Valid(w, buildModules, Now())
      requires exists call :: call in w.files[root].calls && call.paths == args
      modifies this
      ensures Progress(w, buildModules, FilesOf(args), old(Now()), Now(), out)
      ensures SoundWorld(w) ==> ArgsMet(w, compiledFiles, args)
      ensures ArgsRun(w, buildModules, args, old(Has()), Has())
      ensures CallText(w, args, out)
      decreases Left(w, compiledFiles), Reach(ForcedGraph(w), root), 5
    {
      ghost var s := Now();
      out := [];
      ghost var parts: seq<Text> := [];
      Standing(w, buildModules, FilesOf(args), s);
      for i := 0 to |args|
        invariant Progress(w, buildModules, FilesOf(args), s, Now(), out)
        invariant SoundWorld(w) ==> ArgsMet(w, compiledFiles, args[..i])
        invariant ArgsRun(w, buildModules, args[..i], old(Has()), Has())
        invariant IsCallText(w, args[..i], parts, out)
      {
        ghost var t := Now();
        LeftShrinks(w, s.files, t.files);
        assert HasArg(w, root, args[i]);
        var ok, included := PlugRequire(root, args[i]);
        PastArg(w, buildModules, args, i, s, t, Now(), out, included);
        OneMoreArg(w, buildModules, args, i, old(Has()), Noted(t.files, t.modules), Has());
        CallTextGrows(w, args, i, parts, out, included);
        parts := parts + [included];
        if !ok {
          assert out + included == out;
          continue;
        }
        out := out + included;
      }
      assert args[..|args|] == args;
    }

    method PlugRequire(root: Path, arg: PathArg) returns (ok: bool, out: Text)
      requires Buildable(w, buildModules, root) && Valid(w, buildModules, Now()) && HasArg(w, root, arg)
      modifies this
      ensures Progress(w, buildModules, FilesOf([arg]), old(Now()), Now(), out)
      ensures !ok ==> out == []
      ensures SoundWorld(w) ==> ArgsMet(w, compiledFiles, [arg])
      ensures ArgRuns(w, buildModules, arg, old(Has()), Has())
      ensures out == [] || (arg.files.Some? && GroupText(w, arg.files.value, out))
      decreases Left(w, compiledFiles), Reach(ForcedGraph(w), root), 4
    {
      if arg.files.None? {
        Standing(w, buildModules, FilesOf([arg]), Now());
        return false, [];
      }
      assert FilesOf([arg]) == arg.files.value;
      BuildableNow(w, buildModules, root);
      if Asks(w, arg) { ArgBrings(w, buildModules, root, arg); }
      ok, out := CompileFileGroup(arg.files.value, arg.force, root);
    }

    /** The module half of processImport. */
    method ImportModules(root: Path) returns (ok: bool)
      requires Buildable(w, buildModules, root) && Valid(w, buildModules, Now())
      requires root in compiledFiles
      modifies this
      ensures ProgressIn(w, buildModules, root, 0, old(Now()), Now(), [])
      ensures ok ==> InFile(w, buildModules, root, old(Now()), Now(), [])
      ensures !ok ==> !Lossless(w, buildModules)
      ensures ModulesRun(w, buildModules, ModuleNames(w.files[root].calls), old(Has()), Has(), ok)
      decreases Left(w, compiledFiles), Reach(ForcedGraph(w), root), 5
    {
      var names := ModuleNames(w.files[root].calls);
      Inside(w, buildModules, root, Now());
      ok := true;
      if names == [] { return; }
      if !buildModules {
        NoteModules(names);
        return;
      }
      ok := BuildModules(root, names);
    }

    method BuildModules(root: Path, names: seq<Name>) returns (ok: bool)
      requires Buildable(w, buildModules, root) && Valid(w, buildModules, Now()) && buildModules
      requires root in compiledFiles && names == ModuleNames(w.files[root].calls) && names != []
      modifies this
      ensures ProgressIn(w, buildModules, root, 0, old(Now()), Now(), [])
      ensures ok ==> InFile(w, buildModules, root, old(Now()), Now(), [])
      ensures !ok ==> !Lossless(w, buildModules)
      ensures ModulesRun(w, buildModules, names, old(Has()), Has(), ok)
      decreases Left(w, compiledFiles), Reach(ForcedGraph(w), root), 4
    {
      ghost var s, had := Now(), Has();
      var scan := new Scan();
      CheckModules(w, compiledModules, names, scan);
      SearchFits(w, s.modules, root, scan.modules, scan.paths);
      var code;
      ok, code := CompileFileGroup(scan.paths, false, root);
      ghost var t, has := Now(), Has();
      SearchBehind(w, buildModules, root, s, t, scan.modules, scan.paths, code);
      if ok {
        NoteModules(scan.modules);
        modulesCode := modulesCode + code;
        SearchDone(w, root, s, t, scan.modules, scan.paths, code, compiledModules);
      }
      SearchEnds(w, buildModules, names, had, scan.modules, scan.paths, has, Has(), ok);
    }

    /** A whole build of one file by a new compiler. */
    method BuildFile(root: Path) returns (ok: bool, code: Text)
      requires root in w.files && w.files[root].sound ==> Buildable(w, buildModules, root)
      requires Now() == Snap([], [], [])
      modifies this
      ensures ok ==> Built(w, buildModules, root, Now(), code)
      ensures ok ==> Extended(modulesCode, code) && FileText(w, root, code[|modulesCode|..]) && ModuleText(w, modulesCode)
      ensures Lossless(w, buildModules) ==> (ok <==> root in w.files && w.files[root].sound)
      ensures ok && Lossless(w, buildModules) ==> NotesLed(w, buildModules, root, compiledFiles)
      ensures buildModules ==> Backed(w, Now())
      ensures root in w.files && w.files[root].sound ==> FileRuns(w, buildModules, root, Noted([], []), Has(), ok)
    {
      if root !in w.files {
        return false, [];
      }
      NoteFileCompiled(root);
      if !w.files[root].sound {
        return false, [];
      }
      assert [] + [root] == [root];
      ok, code := BuildNoted(root);
      BuildNotes(w, buildModules, root, Has(), ok);
    }

    /** The root is noted and its own directives compile. */
    method BuildNoted(root: Path) returns (ok: bool, code: Text)
      requires Buildable(w, buildModules, root) && Now() == Snap([root], [], [])
      modifies this
      ensures ok ==> Built(w, buildModules, root, Now(), code)
      ensures ok ==> Extended(modulesCode, code) && FileText(w, root, code[|modulesCode|..]) && ModuleText(w, modulesCode)
      ensures !ok ==> !Lossless(w, buildModules)
      ensures buildModules ==> Backed(w, Now())
      ensures FileRuns(w, buildModules, root, Noted([], []), Has(), ok)
    {
      ghost var noted := Has();
      assert [] + [root] == [root] && noted == Noted([], []).(files := [] + [root]);
      var out;
      ok, out := ProcessImport(root);
      if !ok { return false, []; }
      code := modulesCode + out;
      BuildDone(w, buildModules, root, Now(), out);
      assert code[|modulesCode|..] == out;
    }
  }

  /** After the first n turns of a group: their files are noted, each in its turn; the text is theirs, in order. */
  ghost predicate Turned(w: World, build: bool, order: seq<Path>, n: nat, force: bool, had: Noted, has: Noted,
                         parts: seq<Text>, out: Text)
  {
    && n <= |order| && FirstIn(order, n, has.files) && InTurn(w, order, n, had.files, has.files)
    && EmitRuns(w, build, order[..n], force, had, has, true) && IsGroupText(w, order[..n], parts, out)
  }

  lemma NextTurn(w: World, build: bool, order: seq<Path>, n: nat, force: bool, had: Noted, was: Noted, has: Noted,
                 parts: seq<Text>, before: Text, part: Text)
    requires n < |order| && Turned(w, build, order, n, force, had, was, parts, before)
    requires NextRuns(w, build, order[n], force, was, has, true) && TurnText(w, order[n], was.files, part)
    requires Extended(was.files, has.files) && ReachedSince(w, [order[n]], has.files, |was.files|) && order[n] in has.files
    ensures Turned(w, build, order, n + 1, force, had, has, parts + [part], before + part)
  {
    OneMoreFile(w, build, order, n, force, had, was, has, true);
    GroupTextGrows(w, order, n, parts, before, was.files, part);
    TurnTaken(w, order, n, had.files, was.files, has.files);
    OneMoreIn(order, n, was.files, has.files);
  }

  /** What a build that came back has put out and noted. Of every file that no import forces, the result holds all pieces
      in order, once, or none; where no module's file is unsound, all of them exactly if the file is noted. Noted are the
      root and only files that imports lead to; where all files are sound, all that the noted ones ask for. */
  ghost predicate Built(w: World, build: bool, root: Path, t: Snap, code: Text) {
    && (forall f :: !Forced(w, f) ==> Only(code, f) == [] || (f in t.files && Only(code, f) == Whole(w, f)))
    && (Lossless(w, build) ==> forall f :: !Forced(w, f) && f in t.files ==> Only(code, f) == Whole(w, f))
    && root in t.files && ReachedSince(w, [root], t.files, 0)
    && (SoundWorld(w) ==> ClosedSince(w, build, t.files, 0))
  }

  /** In the whole code: of two files that one group puts out, all of the class stands in front of all of the one that
      extends it, unless imports lead to the latter from the former or from a file before it in the order. */
  lemma BuiltInOrder(w: World, build: bool, root: Path, t: Snap, a: Text, g: Text, b: Text, names: seq<Path>, x: Path, y: Path)
    requires Built(w, build, root, t, a + g + b) && GroupText(w, names, g) && Extends(w, names, x, y)
    requires !Forced(w, x) && !Forced(w, y) && !NoPiece(g, x) && !NoPiece(g, y)
    ensures Before(a + g + b, x, y) || exists order :: IsOrder(w, names, order) && LedToFrom(w, order, x, y)
  {
    BuiltOnce(w, build, root, t, a + g + b, x);
    BuiltOnce(w, build, root, t, a + g + b, y);
    SomeIn(a, g, b, x);
    SomeIn(a, g, b, y);
    PlacedInOrder(w, a, g, b, names, x, y);
  }

  lemma BuiltOnce(w: World, build: bool, root: Path, t: Snap, code: Text, f: Path)
    requires Built(w, build, root, t, code) && !Forced(w, f)
    ensures Only(code, f) == [] || Only(code, f) == Whole(w, f)
  {
  }

  lemma SomeIn(a: Text, g: Text, b: Text, f: Path)
    requires !NoPiece(g, f)
    ensures Only(a + g + b, f) != []
  {
    var i :| 0 <= i < |g| && g[i].file == f;
    assert (a + g + b)[|a| + i] == g[i];
    OnlySome(a + g + b, |a| + i);
  }

  /** Noted are exactly the files that the root leads to. */
  ghost predicate NotesLed(w: World, build: bool, root: Path, files: seq<Path>) {
    forall y :: y in files <==> Led(w, build, root, y)
  }

  lemma BuildNotes(w: World, build: bool, root: Path, t: Noted, ok: bool)
    requires Buildable(w, build, root) && FileRuns(w, build, root, Noted([], []), t, ok)
    ensures Lossless(w, build) ==> NotesLed(w, build, root, t.files)
  {
    if Lossless(w, build) { CompiledAreLed(w, build, root, t, ok); }
  }

  lemma BuildDone(w: World, build: bool, root: Path, t: Snap, out: Text)
    requires root in w.files && ProgressIn(w, build, root, |w.files[root].calls| + 1, Snap([root], [], []), t, out)
    requires SoundWorld(w) ==> Satisfied(w, build, t.files, root)
    ensures Built(w, build, root, t, t.code + out)
  {
    assert [] + [root] == [root] && t.files[0] == root;
    ProgressFile(w, build, root, Snap([], [], []), t, out);
    assert t.code[0..] == t.code;
    forall f | !Forced(w, f)
      ensures Only(t.code + out, f) == [] || (f in t.files && Only(t.code + out, f) == Whole(w, f))
      ensures Lossless(w, build) && f in t.files ==> Only(t.code + out, f) == Whole(w, f)
    {
      OnceOrNever(w, !Lossless(w, build), t.files, t.code, out, f);
    }
  }

  /** The readable files that a file names are all files it asks for: the raw text names no other module, and none
      is ignored. */
  ghost predicate Plain(w: World, build: bool) {
    forall x, y :: Imports(w, x, y) && y in w.files ==> Requires(w, build, x, y)
  }

  lemma {:induction false} TrailRequired(w: World, build: bool, t: seq<Path>)
    requires Plain(w, build) && Trail(w, t) && t[|t| - 1] in w.files
    ensures RequiredTrail(w, build, t)
  {
    forall i, j | 0 <= i < |t| - 1 && j == i + 1 ensures Requires(w, build, t[i], t[j]) {
      assert Imports(w, t[i], t[j]);
      if j < |t| - 1 { assert Imports(w, t[j], t[j + 1]); }
    }
  }

  /** After a build of plain, sound files the compiled files are exactly those that imports lead to. */
  lemma CompiledExactly(w: World, build: bool, root: Path, files: seq<Path>, f: Path)
    requires Plain(w, build) && root in files && f in w.files
    requires ReachedSince(w, [root], files, 0) && ClosedSince(w, build, files, 0)
    ensures f in files <==> Reached(w, [root], f)
  {
    if Reached(w, [root], f) {
      var t :| Trail(w, t) && t[0] in [root] && t[|t| - 1] == f;
      TrailRequired(w, build, t);
      ClosedHolds(w, build, files, t);
    }
  }
}
