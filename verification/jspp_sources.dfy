/** What the JS linker finds on disk and in the module map. Files and modules are known by name only: a file
    carries its class definitions and its import calls, already cut out of its text. */
module Sources {
  import opened Common

  type Path = string
  type Name = string

  /** A class definition: its own full name, and the name it extends if any. */
  datatype ClassDef = ClassDef(name: Name, parent: Option<Name>)

  /** A path argument of an import call: the files it stands for (None if its directory cannot be listed). */
  datatype PathArg = PathArg(files: Option<seq<Path>>, force: bool)

  datatype ImportCall = ImportCall(paths: seq<PathArg>, modules: seq<Name>)

  /** A readable file. `sound` says that its inner directives compile; `calls` are the import calls of the text
      they leave, `raw` the module names imported by the text as it is on disk. */
  datatype Source = Source(sound: bool, classes: seq<ClassDef>, calls: seq<ImportCall>, raw: seq<Name>)

  /** `files` are the readable files, `present` the paths that exist; `bound` says that a preprocessor with a
      module map and an injector is attached. */
  datatype World = World(bound: bool, files: map<Path, Source>, present: set<Path>, modules: map<Name, Path>,
                         injector: map<Name, Name>, ignored: set<Name>)

  predicate ValidWorld(w: World) {
    w.files.Keys <= w.present
  }
}
